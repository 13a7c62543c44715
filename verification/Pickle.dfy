/**
 The Pickle object (src/base3/pickle.cc, src/base3/pickle.h): a growing buffer whose
 first four bytes hold the payload size, or a read-only view of somebody else's bytes.
 */
module Pickle {
  import opened Words
  import F = PickleFormat
  import opened PickleFormat

  const PAYLOAD_UNIT: nat := 64
  const READ_ONLY := 0xffff_ffff_ffff_ffff  // the special capacity

  const NO_MEMORY := -1  // a null pointer into the buffer

  /** The new payload is the old one, up to three bytes of gap, and the data. */
  ghost predicate Extends(p: Bytes, p': Bytes, data: Bytes) {
    |p'| == Align4(|p|) + |data| && p'[..|p|] == p && p'[Align4(|p|)..] == data
  }

  /** What is left of a buffer after it was trimmed. */
  function Kept(data: Bytes, newLength: int32): (k: Bytes)
    ensures |k| <= |data|
  {
    if 0 <= newLength <= |data| then data[..newLength] else data
  }

  class Pickle {
    var header: array?<byte>
    var headerSize: nat
    var capacity: int
    var variableBufferOffset: nat
    ghost var refused: bool  // an allocation has been refused

    function PayloadSize(): int
      requires header != null && header.Length >= 4
      reads this, header
    {
      FromLittle(header[..4])
    }

    /** What every operation on an owned pickle keeps. */
    ghost predicate Owned()
      reads this, header
    {
      && header != null && header.Length == capacity && capacity % 64 == 0
      && headerSize % 4 == 0 && 4 <= headerSize <= capacity && headerSize + PayloadSize() <= capacity
    }

    /** A read-only pickle is rejected or consistent with its data. */
    ghost predicate ReadOnly()
      reads this, header
    {
      && capacity == READ_ONLY
      && (header == null ==> headerSize == 0)
      && (header != null ==> headerSize % 4 == 0 && 4 <= headerSize <= header.Length
                             && headerSize + PayloadSize() <= header.Length)
    }

    ghost function Payload(): Bytes
      requires header != null && 4 <= header.Length && headerSize + PayloadSize() <= header.Length
      reads this, header
    {
      header[headerSize..headerSize + PayloadSize()]
    }

    ghost function AsView(): View
      requires Owned() || ReadOnly()
      reads this, header
    {
      if header == null then Rejected else View(header[..headerSize + PayloadSize()], headerSize)
    }

    lemma ViewShows(chunks: seq<Bytes>)
      requires Owned() && Laid(Payload(), chunks)
      ensures Shows(AsView(), chunks) && Sound(AsView())
    {
      assert AsView().bytes[headerSize..] == Payload();
    }

    // ----- Construction -----

    /** An empty pickle; the header size is rounded up to a multiple of four. */
    constructor (headerSize: nat)
      requires 4 <= headerSize <= PAYLOAD_UNIT
      ensures Owned() && Payload() == [] && fresh(header)
      ensures this.headerSize == Align4(headerSize) && variableBufferOffset == 0
      ensures capacity == 64 && !refused
    {
      refused := false;
      this.headerSize := AlignInt(headerSize, 4);
      variableBufferOffset := 0;
      header, capacity := new byte[PAYLOAD_UNIT], PAYLOAD_UNIT;
      new;
      AlignWithin(headerSize, PAYLOAD_UNIT);
      SetPayloadSize(0);
    }

    /** A read-only pickle over existing bytes, accepted only if its sizes add up. */
    constructor FromData(data: array<byte>, dataLen: int)
      requires dataLen <= data.Length && dataLen <= INT_MAX
      ensures ReadOnly()
      ensures header != null ==> header == data && headerSize + PayloadSize() == dataLen
      ensures header != null <==> dataLen >= 4 && FromLittle(data[..4]) < dataLen
                                  && (dataLen - FromLittle(data[..4])) % 4 == 0
    {
      var size: int := 0;
      var payload: int := if dataLen >= 4 then FromLittle(data[..4]) else 0;
      if dataLen >= 4 {
        size := (dataLen - payload) % WIDTH;  // unsigned subtraction
      }
      if size > dataLen {
        size := 0;
      }
      if size != AlignInt(size, 4) {
        size := 0;
      }
      UnsignedSize(dataLen, payload);
      headerSize, capacity, variableBufferOffset := size, READ_ONLY, 0;
      header := if size == 0 then null else data;
    }

    /** A deep copy; the source stops the program when memory runs out. */
    constructor Copy(other: Pickle)
      requires (other.Owned() || other.ReadOnly()) && other.header != null
      ensures Owned() && fresh(header) && AsView() == other.AsView()
      ensures variableBufferOffset == other.variableBufferOffset
    {
      var size := other.headerSize + other.PayloadSize();
      headerSize, variableBufferOffset := other.headerSize, other.variableBufferOffset;
      AlignIntRoundsUp(size);
      var p := new byte[AlignInt(size, PAYLOAD_UNIT)];
      forall i | 0 <= i < size {
        p[i] := other.header[i];
      }
      assert p[..4] == other.header[..4] && p[..size] == other.header[..size];
      header, capacity := p, AlignInt(size, PAYLOAD_UNIT);
    }

    /**
     Assignment reuses the buffer where the header sizes agree; false when memory runs out. A
     view of the buffer of the very pickle that is assigned to would read freed memory.
     */
    method Assign(other: Pickle) returns (ok: bool)
      requires (Owned() || ReadOnly()) && (other.Owned() || other.ReadOnly()) && other.header != null
      requires this != other && header == other.header ==> capacity == READ_ONLY
      modifies this, header
      ensures this == other ==> ok && unchanged(this)
      ensures refused == (old(refused) || !ok)
      ensures ok ==> Owned() || ReadOnly()
      ensures ok ==> AsView() == old(other.AsView()) && variableBufferOffset == other.variableBufferOffset
      ensures ok && this != other ==> Owned() && fresh(header)
      ensures other.header == if this == other then header else old(other.header)
      ensures old(other.header[..]) == old(other.header)[..]
    {
      hide AlignInt, FromLittle;
      if this == other {
        return true;
      }
      ghost var view := other.AsView();
      Adapt(other.headerSize);
      var size := other.headerSize + other.PayloadSize();
      AlignIntRoundsUp(size);
      ok := Resize(size);
      if ok {
        CopyFront(header, other.header, size);
        variableBufferOffset := other.variableBufferOffset;
        FrontView(other, size, view);
      }
    }

    /** Drop a buffer that is not this pickle's own, or that has another header size. */
    method Adapt(otherSize: nat)
      requires Owned() || ReadOnly()
      modifies this`header, this`capacity, this`headerSize
      ensures headerSize == otherSize && capacity != READ_ONLY && (header != null ==> header.Length == capacity)
      ensures header == null || (header == old(header) && old(capacity) != READ_ONLY)
    {
      if capacity == READ_ONLY {
        header, capacity := null, 0;
      }
      if headerSize != otherSize {
        header, headerSize := null, otherSize;
      }
    }

    /** A buffer whose front agrees with another pickle shows the same. */
    lemma FrontView(other: Pickle, size: nat, view: View)
      requires other.Owned() || other.ReadOnly()
      requires other.header != null && size == other.headerSize + other.PayloadSize() && view == other.AsView()
      requires header != null && header.Length == capacity && capacity % 64 == 0 && size <= capacity
      requires headerSize == other.headerSize
      requires header[..size] == other.header[..size] && header[..4] == other.header[..4]
      ensures Owned() && AsView() == view
    {
      hide FromLittle;
    }

    /** memcpy of a whole pickle. */
    static method CopyFront(to: array<byte>, from: array<byte>, size: nat)
      requires to != from && 4 <= size <= to.Length && size <= from.Length
      modifies to
      ensures to[..size] == from[..size] && to[..4] == from[..4]
    {
      forall i | 0 <= i < size {
        to[i] := from[i];
      }
    }

    // ----- Memory -----

    /** realloc to a multiple of the unit; it may fail. */
    method Resize(newCapacity: nat) returns (ok: bool)
      requires capacity != READ_ONLY && (header != null ==> header.Length == capacity)
      modifies this`header, this`capacity, this`refused
      ensures refused == (old(refused) || !ok)
      ensures !ok ==> header == old(header) && capacity == old(capacity)
      ensures ok ==> header != null && fresh(header) && header.Length == capacity == AlignInt(newCapacity, 64)
      ensures ok && old(header) != null ==>
                var n := if header.Length < old(header).Length then header.Length else old(header).Length;
                header[..n] == old(header)[..n]
    {
      ok := *;
      refused := refused || !ok;
      if !ok { return; }
      var size := AlignInt(newCapacity, PAYLOAD_UNIT);
      var p := new byte[size];
      if header != null {
        forall i | 0 <= i < size && i < header.Length {
          p[i] := header[i];
        }
      }
      header, capacity := p, size;
    }

    method SetPayloadSize(n: u32)
      requires header != null && header.Length >= 4
      modifies header
      ensures PayloadSize() == n && header[4..] == old(header[4..])
    {
      var b := ToLittle(n);
      header[0], header[1], header[2], header[3] := b[0], b[1], b[2], b[3];
      assert header[..4] == b;
    }

    /** A new size, and the old payload where it was. */
    method GrowPayload(n: u32, ghost size: nat)
      requires header != null && 4 <= headerSize && headerSize + size <= header.Length
      modifies header
      ensures PayloadSize() == n && header[4..headerSize + size] == old(header[4..headerSize + size])
      ensures header[headerSize..headerSize + size] == old(header[headerSize..headerSize + size])
    {
      hide FromLittle;
      FrontParts(header, headerSize + size, headerSize);
      SetPayloadSize(n);
      FrontParts(header, headerSize + size, headerSize);
    }

    // ----- Writing -----

    /** Grow to twice the capacity or to what is needed, whichever is more. */
    method Reserve(neededSize: nat) returns (ok: bool)
      requires Owned()
      modifies this`header, this`capacity, this`refused
      ensures refused == (old(refused) || !ok) && old(capacity) <= capacity
      ensures neededSize <= old(capacity) ==> ok && header == old(header)
      ensures Owned() && PayloadSize() == old(PayloadSize()) && (header == old(header) || fresh(header))
      ensures !ok ==> header == old(header)
      ensures ok ==> neededSize <= capacity
      ensures header[..headerSize + PayloadSize()] == old(header[..headerSize + PayloadSize()])
      ensures header[4..headerSize + PayloadSize()] == old(header[4..headerSize + PayloadSize()])
      ensures Payload() == old(Payload())
    {
      hide FromLittle;
      ok := true;
      if neededSize > capacity {
        ghost var was := header[..];
        SameParts(header, was, headerSize + PayloadSize(), headerSize);
        ok := Enlarge(if capacity * 2 > neededSize then capacity * 2 else neededSize);
        if ok {
          SameParts(header, was, headerSize + FromLittle(was[..4]), headerSize);
        }
      }
    }

    method Enlarge(wanted: nat) returns (ok: bool)
      requires Owned() && wanted >= capacity
      modifies this`header, this`capacity, this`refused
      ensures refused == (old(refused) || !ok)
      ensures !ok ==> header == old(header) && capacity == old(capacity)
      ensures ok ==> header != null && fresh(header) && header.Length == capacity && capacity % 64 == 0
      ensures ok ==> old(capacity) <= wanted <= capacity && header[..old(capacity)] == old(header[..])
    {
      AlignIntRoundsUp(wanted);
      hide AlignInt;
      ok := Resize(wanted);
    }

    /** Room for length more bytes at the next aligned offset, or NO_MEMORY and no change. */
    method BeginWrite(length: nat) returns (dest: int)
      requires Owned() && Align4(PayloadSize()) + length < WIDTH
      modifies this`header, this`capacity, this`refused, header
      ensures refused == (old(refused) || dest == NO_MEMORY) && old(capacity) <= capacity
      ensures headerSize + Align4(old(PayloadSize())) + length <= old(capacity) ==> dest != NO_MEMORY
      ensures Owned() && (header == old(header) || fresh(header))
      ensures dest == NO_MEMORY ==> AsView() == old(AsView())
      ensures dest != NO_MEMORY ==>
                && dest == headerSize + Align4(old(PayloadSize())) && dest + Align4(length) <= capacity
                && PayloadSize() == Align4(old(PayloadSize())) + length
                && header[4..headerSize + old(PayloadSize())] == old(header[4..headerSize + PayloadSize()])
                && header[headerSize..headerSize + old(PayloadSize())] == old(Payload())
    {
      hide AlignInt, Align4, FromLittle, ToLittle;
      ghost var size := PayloadSize();
      var offset := Align4(PayloadSize());
      var newSize := offset + length;
      var reserved := Reserve(headerSize + newSize);
      if !reserved {
        return NO_MEMORY;
      }
      RoomForPadding(headerSize, offset, length, capacity);
      assert newSize % WIDTH == newSize;
      GrowPayload(newSize % WIDTH, size);
      dest := headerSize + offset;
    }

    /** Zeros up to the next aligned offset, inside the allocation. */
    method EndWrite(dest: nat, length: nat)
      requires header != null && dest + Align4(length) <= header.Length
      modifies header
      ensures header[..dest + length] == old(header[..dest + length])
      ensures header[dest + length..dest + Align4(length)] == seq(Align4(length) - length, _ => 0)
    {
      if length % 4 != 0 {
        forall i | dest + length <= i < dest + length + (4 - length % 4) {
          header[i] := 0;
        }
      }
    }

    /** EndWrite for data that the caller fills in later. */
    method Pad(dest: nat, length: nat)
      requires header != null && 4 <= headerSize <= dest && dest + Align4(length) <= header.Length
      modifies header
      ensures header[headerSize..dest] == old(header[headerSize..dest]) && PayloadSize() == old(PayloadSize())
    {
      hide Align4, FromLittle;
      ghost var front := header[..dest];
      assert front[..4] == header[..4] && front[headerSize..] == header[headerSize..dest];
      EndWrite(dest, length);
      assert header[..dest] == header[..dest + length][..dest] == front;
      assert header[..4] == header[..dest][..4] && header[headerSize..dest] == header[..dest][headerSize..];
    }

    /** memcpy. */
    method CopyTo(dest: nat, data: Bytes)
      requires header != null && 4 <= dest && dest + |data| <= header.Length
      modifies header
      ensures header[..dest + |data|] == old(header[..dest]) + data
      ensures PayloadSize() == old(PayloadSize())
    {
      hide FromLittle;
      ghost var front := header[..dest];
      assert front[..4] == header[..4];
      forall i | 0 <= i < |data| {
        header[dest + i] := data[i];
      }
      assert header[..dest] == front && header[dest..dest + |data|] == data;
      assert header[..4] == front[..4];
      assert header[..dest + |data|] == header[..dest] + header[dest..dest + |data|];
    }

    /** memcpy to the place BeginWrite returned, then EndWrite. */
    method Fill(dest: nat, data: Bytes)
      requires header != null && 4 <= headerSize <= dest && dest + Align4(|data|) <= header.Length
      modifies header
      ensures header[headerSize..dest + |data|] == old(header[headerSize..dest]) + data
      ensures PayloadSize() == old(PayloadSize())
    {
      hide Align4, FromLittle;
      FillEnd(dest, data);
      FrontParts(header, dest + |data|, headerSize);
      EndWrite(dest, |data|);
      FrontParts(header, dest + |data|, headerSize);
    }

    method WriteBytes(data: Bytes) returns (ok: bool)
      requires Owned() && Align4(PayloadSize()) + |data| < WIDTH
      modifies this`header, this`capacity, this`refused, header
      ensures refused == (old(refused) || !ok) && old(capacity) <= capacity
      ensures headerSize + Align4(old(PayloadSize())) + |data| <= old(capacity) ==> ok
      ensures Owned() && (header == old(header) || fresh(header))
      ensures ok ==> Extends(old(Payload()), Payload(), data)
      ensures !ok ==> AsView() == old(AsView())
    {
      hide AlignInt, Align4, FromLittle, Extends;
      ghost var p := Payload();
      var dest := BeginWrite(|data|);
      if dest == NO_MEMORY {
        return false;
      }
      ghost var front := header[headerSize..dest];
      FrontOfSlice(header, headerSize, headerSize + |p|, dest);
      Fill(dest, data);
      FilledFront(front, data, p);
      ok := true;
    }

    // The chunks written so far are a ghost parameter of the typed operations.

    method WriteChunk(data: Bytes, ghost chunks: seq<Bytes>) returns (ok: bool)
      requires Owned() && Laid(Payload(), chunks) && End(chunks + [data]) < WIDTH
      modifies this`header, this`capacity, this`refused, header
      ensures refused == (old(refused) || !ok) && old(capacity) <= capacity
      ensures headerSize + End(chunks + [data]) <= old(capacity) ==> ok
      ensures Owned() && (header == old(header) || fresh(header))
      ensures ok ==> Laid(Payload(), chunks + [data])
      ensures !ok ==> AsView() == old(AsView())
    {
      hide AlignInt, Align4, Start, FromLittle;
      EndAppend(chunks, data);
      ghost var p := Payload();
      ok := WriteBytes(data);
      if ok {
        LaidAppend(p, Payload(), chunks, data);
      }
    }

    /** A length followed by the bytes it announces: WriteString, WriteWString, WriteData. */
    method WriteCounted(length: int32, data: Bytes, ghost chunks: seq<Bytes>) returns (ok: bool)
      requires Owned() && Laid(Payload(), chunks) && End(chunks + [EncodeInt(length), data]) < WIDTH
      modifies this`header, this`capacity, this`refused, header
      ensures refused == (old(refused) || !ok) && old(capacity) <= capacity
      ensures headerSize + End(chunks + [EncodeInt(length), data]) <= old(capacity) ==> ok
      ensures Owned() && (header == old(header) || fresh(header))
      ensures ok ==> Laid(Payload(), chunks + [EncodeInt(length), data])
    {
      EndAppend(chunks, EncodeInt(length));
      EndAppend(chunks + [EncodeInt(length)], data);
      assert chunks + [EncodeInt(length), data] == chunks + [EncodeInt(length)] + [data];
      ok := WriteChunk(EncodeInt(length), chunks);
      if ok {
        ok := WriteChunk(data, chunks + [EncodeInt(length)]);
      }
    }

    method Write(v: Value, ghost chunks: seq<Bytes>) returns (ok: bool)
      requires Owned() && Fits(v) && Laid(Payload(), chunks) && End(chunks + Chunks(v)) < WIDTH
      modifies this`header, this`capacity, this`refused, header
      ensures refused == (old(refused) || !ok) && old(capacity) <= capacity
      ensures headerSize + End(chunks + Chunks(v)) <= old(capacity) ==> ok
      ensures Owned() && (header == old(header) || fresh(header))
      ensures ok ==> Laid(Payload(), chunks + Chunks(v))
    {
      hide Laid, End, EncodeInt, EncodeU64, EncodeInt64, EncodeU32, EncodeWide;
      match v {
        case Bool(b) => ok := WriteChunk(EncodeInt(if b then 1 else 0), chunks);
        case Int(i) => ok := WriteChunk(EncodeInt(i), chunks);
        case Long(l) => ok := WriteChunk(EncodeInt64(l), chunks);
        case Size(z) => ok := WriteChunk(EncodeU64(z), chunks);
        case UInt32(u) => ok := WriteChunk(EncodeU32(u), chunks);
        case Int64(q) => ok := WriteChunk(EncodeInt64(q), chunks);
        case UInt64(uq) => ok := WriteChunk(EncodeU64(uq), chunks);
        case Str(s) => ok := WriteCounted(|s|, s, chunks);
        case WStr(w) => ok := WriteCounted(|w|, EncodeWide(w), chunks);
        case Data(d) => ok := WriteCounted(|d|, d, chunks);
        case Raw(r) => ok := WriteChunk(r, chunks);
      }
    }

    // ----- Writing in place -----

    /** BeginWrite and EndWrite behind a payload that is already aligned. */
    method ReserveData(length: nat) returns (dest: int)
      requires Owned() && Align4(PayloadSize()) == PayloadSize() && PayloadSize() + length < WIDTH
      modifies this`header, this`capacity, this`refused, header
      ensures refused == (old(refused) || dest == NO_MEMORY) && old(capacity) <= capacity
      ensures headerSize + old(PayloadSize()) + length <= old(capacity) ==> dest != NO_MEMORY
      ensures Owned() && (header == old(header) || fresh(header))
      ensures dest != NO_MEMORY ==>
                && dest == headerSize + old(PayloadSize()) && dest + length == headerSize + PayloadSize()
                && header[headerSize..dest] == old(Payload())
    {
      hide AlignInt, Align4, FromLittle;
      ghost var before := Payload();
      dest := BeginWrite(length);
      if dest != NO_MEMORY {
        assert header[headerSize..dest] == header[4..dest][headerSize - 4..] == before;
        Pad(dest, length);
      }
    }

    /** Reserve a counted buffer for the caller; the length word in front of it is remembered. */
    method BeginWriteData(length: int32, ghost chunks: seq<Bytes>) returns (dest: int)
      requires Owned() && Laid(Payload(), chunks) && variableBufferOffset == 0
      requires Align4(End(chunks)) + 4 + length < WIDTH
      modifies this, header
      ensures Owned() && (header == old(header) || fresh(header)) && headerSize == old(headerSize)
      ensures length < 0 ==> dest == NO_MEMORY
      ensures refused == (old(refused) || (length >= 0 && dest == NO_MEMORY)) && old(capacity) <= capacity
      ensures length >= 0 && headerSize + Align4(End(chunks)) + 4 + length <= old(capacity) ==> dest != NO_MEMORY
      ensures dest != NO_MEMORY ==>
                && variableBufferOffset == headerSize + Start(chunks, |chunks|) && dest == variableBufferOffset + 4
                && dest + length == headerSize + PayloadSize()
                && Laid(header[headerSize..dest], chunks + [EncodeInt(length)])
    {
      hide AlignInt, Align4, Start, FromLittle, EncodeInt, Laid;
      if length < 0 {
        return NO_MEMORY;
      }
      EndAppend(chunks, EncodeInt(length));
      var ok := WriteChunk(EncodeInt(length), chunks);
      if !ok {
        return NO_MEMORY;
      }
      ghost var before := Payload();
      AfterWord(chunks, EncodeInt(length));
      EndOf(before, chunks + [EncodeInt(length)]);
      dest := ReserveData(length);
      if dest != NO_MEMORY {
        variableBufferOffset := dest - 4;
      }
    }

    /** Store a new payload size, and a word further on. */
    method Rewrite(size: u32, off: nat, word: Bytes)
      requires header != null && 4 <= off && off + 4 <= header.Length && |word| == 4
      modifies header
      ensures PayloadSize() == size && header[off..off + 4] == word
      ensures forall i :: 4 <= i < header.Length && !(off <= i < off + 4) ==> header[i] == old(header[4..])[i - 4]
    {
      hide FromLittle;
      ghost var was := header[4..];
      SetPayloadSize(size);
      assert forall i :: 4 <= i < header.Length ==> header[i] == header[4..][i - 4];
      ghost var front := header[..4];
      header[off], header[off + 1], header[off + 2], header[off + 3] := word[0], word[1], word[2], word[3];
      assert header[..4] == front;
    }

    /** Cut the end of the payload and rewrite the length word at some offset of it. */
    method Shrink(at: nat, less: nat, word: Bytes)
      requires Owned() && |word| == 4 && at + 4 + less <= PayloadSize()
      modifies header
      ensures Owned() && Trimmed(old(Payload()), Payload(), at, word, |old(Payload())| - at - 4 - less)
    {
      hide AlignInt, Align4, FromLittle, Trimmed;
      ghost var p, was, left := Payload(), header[4..], PayloadSize() - at - 4 - less;
      assert was[headerSize - 4..headerSize - 4 + |p|] == p;
      Rewrite(PayloadSize() - less, headerSize + at, word);
      RewrittenWord(p, was, header[..], headerSize, at, word, left);
      Sliced(header, headerSize, headerSize + at + 4 + left);
    }

    /**
     Shorten the counted buffer by cutting the end of the payload; an invalid length is
     ignored. What is cut is the end of the buffer itself when nothing was written later.
     */
    method TrimWriteData(newLength: int32, ghost chunks: seq<Bytes>, ghost data: Bytes, ghost later: seq<Bytes>)
      requires Owned() && |data| <= INT_MAX && Laid(Payload(), chunks + [EncodeInt(|data|), data] + later)
      requires variableBufferOffset == headerSize + Start(chunks, |chunks|)
      modifies header
      ensures Owned()
      ensures !(0 <= newLength <= |data|) ==> Payload() == old(Payload())
      ensures 0 <= newLength <= |data| ==>
                Trimmed(old(Payload()), Payload(), Start(chunks, |chunks|), EncodeInt(newLength),
                        |old(Payload())| - Start(chunks, |chunks|) - 4 - (|data| - newLength))
    {
      hide AlignInt, Align4, Start, EncodeInt, DecodeInt, FromLittle, Laid, Trimmed;
      ghost var p, at := Payload(), Start(chunks, |chunks|);
      TrimBounds(p, chunks, EncodeInt(|data|), data, later);
      var off := variableBufferOffset;
      Subslice(header[..], headerSize, PayloadSize(), at, 4);
      Sliced(header, headerSize, headerSize + PayloadSize());
      Sliced(header, off, off + 4);
      IntRoundTrip(|data|);
      var cur := DecodeInt(header[off..off + 4]);
      if newLength < 0 || newLength > cur {
        return;
      }
      Shrink(off - headerSize, cur - newLength, EncodeInt(newLength));
    }

    method FillEnd(dest: nat, data: Bytes)
      requires header != null && 4 <= headerSize <= dest && dest + |data| <= header.Length
      modifies header
      ensures header[headerSize..dest + |data|] == old(header[headerSize..dest]) + data
      ensures PayloadSize() == old(PayloadSize())
    {
      hide FromLittle;
      ghost var front := header[..dest];
      FrontParts(header, dest, headerSize);
      CopyTo(dest, data);
      FrontParts(header, dest + |data|, headerSize);
      assert (front + data)[headerSize..] == front[headerSize..] + data;
    }

    /** What a caller does with the pointer it got from BeginWriteData. */
    method FillReserved(dest: nat, data: Bytes, ghost chunks: seq<Bytes>)
      requires Owned() && headerSize <= dest && dest + |data| == headerSize + PayloadSize()
      requires |data| <= INT_MAX && Laid(header[headerSize..dest], chunks + [EncodeInt(|data|)])
      modifies header
      ensures Owned() && Laid(Payload(), chunks + [EncodeInt(|data|), data])
    {
      hide AlignInt, Align4, Start, EncodeInt, FromLittle, Laid;
      ghost var p := header[headerSize..dest];
      FillEnd(dest, data);
      AppendToAligned(p, chunks, EncodeInt(|data|), data);
    }

    /** A caller that fills the reserved buffer and trims it has written what it keeps; an invalid length keeps all. */
    method WriteInPlace(data: Bytes, kept: int32, ghost chunks: seq<Bytes>) returns (ok: bool)
      requires Owned() && Laid(Payload(), chunks) && variableBufferOffset == 0
      requires |data| <= INT_MAX && Align4(End(chunks)) + 4 + |data| < WIDTH
      modifies this, header
      ensures refused == (old(refused) || !ok) && headerSize == old(headerSize) && old(capacity) <= capacity
      ensures headerSize + Align4(End(chunks)) + 4 + |data| <= old(capacity) ==> ok
      ensures Owned() && (header == old(header) || fresh(header))
      ensures ok ==> Laid(Payload(), chunks + Chunks(Data(Kept(data, kept))))
    {
      hide AlignInt, Align4, Start, EncodeInt, FromLittle, Laid, Trimmed;
      var dest := BeginWriteData(|data|, chunks);
      if dest == NO_MEMORY {
        return false;
      }
      FillReserved(dest, data, chunks);
      ghost var p := Payload();
      assert chunks + [EncodeInt(|data|), data] + [] == chunks + [EncodeInt(|data|), data];
      TrimWriteData(kept, chunks, data, []);
      if 0 <= kept <= |data| {
        TrimmedLast(p, Payload(), chunks, data, kept);
      }
      ok := true;
    }

    // ----- Reading -----

    /** The offset of the first byte after the payload; 0 for a rejected pickle. */
    function EndOfPayload(): int
      requires Owned() || ReadOnly()
      reads this, header
    {
      if header == null then 0 else headerSize + PayloadSize()
    }

    predicate IteratorHasRoomFor(iter: Iter, len: int)
      requires Owned() || ReadOnly()
      reads this, header
    {
      var at := if iter.Null? then 0 else iter.at;
      if len < 0 || (header == null) != iter.Null? || at < 0 || at > EndOfPayload() then false
      else at + len <= EndOfPayload()
    }

    /** The core of every Read operation: start at the payload, check the room, take the bytes, advance. */
    method ReadBytes(iter: Iter, length: int) returns (ok: bool, iter': Iter, data: Bytes)
      requires Owned() || ReadOnly()
      ensures F.Read(iter', if ok then Some(data) else None) == F.ReadBytes(AsView(), iter, length)
    {
      hide AlignInt, Align4, FromLittle;
      iter' := if iter.Null? && header != null then Pos(headerSize) else iter;
      data := [];
      if !IteratorHasRoomFor(iter', length) {
        return false, iter', data;
      }
      if header != null {
        data := header[iter'.at..iter'.at + length];
        Subslice(header[..], 0, EndOfPayload(), iter'.at, length);
        assert data == AsView().bytes[iter'.at..iter'.at + length];
        iter' := Pos(iter'.at + Align4(length));
      }
      ok := true;
    }

    method ReadInt(iter: Iter) returns (ok: bool, iter': Iter, result: int32)
      requires Owned() || ReadOnly()
      ensures F.Read(iter', if ok then Some(result) else None) == F.ReadInt(AsView(), iter)
    {
      var bytes;
      ok, iter', bytes := ReadBytes(iter, 4);
      result := if ok then DecodeInt(bytes) else 0;
    }

    method ReadLength(iter: Iter) returns (ok: bool, iter': Iter, result: int32)
      requires Owned() || ReadOnly()
      ensures F.Read(iter', if ok then Some(result) else None) == F.ReadLength(AsView(), iter)
    {
      ok, iter', result := ReadInt(iter);
      ok := ok && result >= 0;
    }

    method ReadString(iter: Iter) returns (ok: bool, iter': Iter, result: Bytes)
      requires Owned() || ReadOnly()
      ensures F.Read(iter', if ok then Some(result) else None) == F.ReadCounted(AsView(), iter, 1)
    {
      hide F.ReadBytes, F.ReadInt;
      var len;
      ok, iter', len := ReadLength(iter);
      result := [];
      if ok {
        ok, iter', result := ReadBytes(iter', len);
      }
    }

    method ReadWString(iter: Iter) returns (ok: bool, iter': Iter, result: seq<u32>)
      requires Owned() || ReadOnly()
      ensures F.Read(iter', if ok then Some(WStr(result)) else None) == F.ReadValue(AsView(), iter, KWStr)
    {
      hide F.ReadBytes, F.ReadInt;
      var len;
      ok, iter', len := ReadLength(iter);
      result := [];
      if ok && len > INT_MAX / 4 {
        ok := false;
      }
      if ok {
        var bytes;
        ok, iter', bytes := ReadBytes(iter', len * 4);
        if ok {
          result := DecodeWide(bytes);
        }
      }
    }
  }

  // ----- Whole runs -----

  lemma {:induction false} AllChunksAppend(vs: seq<Value>, v: Value)
    requires (forall x :: x in vs ==> Fits(x)) && Fits(v)
    ensures AllChunks(vs + [v]) == AllChunks(vs) + Chunks(v)
  {
    if vs == [] {
      assert vs + [v] == [v] && [v][1..] == [];
    } else {
      assert (vs + [v])[1..] == vs[1..] + [v];
      AllChunksAppend(vs[1..], v);
    }
  }

  /** One write: a typed value, or a buffer that is filled in place and trimmed at once. */
  datatype Op = Typed(value: Value) | InPlace(data: Bytes, newLength: int32)

  predicate FitsOp(op: Op) {
    match op
    case Typed(v) => Fits(v)
    case InPlace(data, _) => |data| <= INT_MAX
  }

  /** The value that a reader is to find. */
  function Meant(op: Op): (v: Value)
    requires FitsOp(op)
    ensures Fits(v)
  {
    match op
    case Typed(v) => v
    case InPlace(data, newLength) => Data(Kept(data, newLength))
  }

  /** The value whose room is needed while the write goes on. */
  function Peak(op: Op): (v: Value)
    requires FitsOp(op)
    ensures Fits(v)
  {
    match op
    case Typed(v) => v
    case InPlace(data, _) => Data(data)
  }

  function MeantAll(ops: seq<Op>): (vs: seq<Value>)
    requires forall k :: 0 <= k < |ops| ==> FitsOp(ops[k])
    ensures |vs| == |ops| && forall x :: x in vs ==> Fits(x)
  {
    seq(|ops|, k requires 0 <= k < |ops| => Meant(ops[k]))
  }

  /** The limits of a run: the payload is counted in an unsigned 32-bit field, and there is one variable buffer. */
  ghost predicate WithinLimits(ops: seq<Op>) {
    && (forall k :: 0 <= k < |ops| ==> FitsOp(ops[k]))
    && (forall j, k :: 0 <= j < k < |ops| && ops[j].InPlace? ==> !ops[k].InPlace?)
    && (forall k :: 0 <= k < |ops| ==> End(AllChunks(MeantAll(ops)[..k]) + Chunks(Peak(ops[k]))) < WIDTH)
  }

  /** No write of the run needs more room than this for the payload. */
  ghost predicate FitsInto(ops: seq<Op>, room: int)
    requires WithinLimits(ops)
  {
    forall k :: 0 <= k < |ops| ==> End(AllChunks(MeantAll(ops)[..k]) + Chunks(Peak(ops[k]))) <= room
  }

  lemma NextChunks(vs: seq<Value>, k: nat)
    requires (forall x :: x in vs ==> Fits(x)) && k < |vs|
    ensures AllChunks(vs[..k + 1]) == AllChunks(vs[..k]) + Chunks(vs[k])
  {
    assert vs[..k + 1] == vs[..k] + [vs[k]];
    AllChunksAppend(vs[..k], vs[k]);
  }

  lemma InPlaceRoom(chunks: seq<Bytes>, data: Bytes)
    requires |data| <= INT_MAX
    ensures End(chunks + Chunks(Data(data))) == Align4(End(chunks)) + 4 + |data|
  {
    hide Align4, Start, EncodeInt;
    var word := EncodeInt(|data|);
    assert chunks + [word, data] == chunks + [word] + [data];
    EndAppend(chunks, word);
    EndAppend(chunks + [word], data);
    AfterWord(chunks, word);
  }

  ghost predicate ReadsAs(v: View, vs: seq<Value>) {
    var r := ReadAll(v, Null, KindsOf(vs));
    r.result == Some(vs) && F.ReadInt(v, r.iter).result == None
  }

  method WriteOp(p: Pickle, op: Op, ghost chunks: seq<Bytes>) returns (ok: bool)
    requires p.Owned() && FitsOp(op) && Laid(p.Payload(), chunks) && End(chunks + Chunks(Peak(op))) < WIDTH
    requires op.InPlace? ==> p.variableBufferOffset == 0
    modifies p, p.header
    ensures p.refused == (old(p.refused) || !ok) && p.headerSize == old(p.headerSize) && old(p.capacity) <= p.capacity
    ensures p.headerSize + End(chunks + Chunks(Peak(op))) <= old(p.capacity) ==> ok
    ensures p.Owned() && (p.header == old(p.header) || fresh(p.header))
    ensures op.Typed? ==> p.variableBufferOffset == old(p.variableBufferOffset)
    ensures ok ==> Laid(p.Payload(), chunks + Chunks(Meant(op)))
  {
    hide End, Chunks, Laid, Kept;
    match op
    case Typed(v) =>
      ok := p.Write(v, chunks);
    case InPlace(data, newLength) =>
      InPlaceRoom(chunks, data);
      ok := p.WriteInPlace(data, newLength, chunks);
  }

  /**
   Any sequence of writes reads back as what was meant, and then nothing more. It fails exactly
   when an allocation is refused, and needs none while everything fits the capacity.
   */
  method WriteAll(p: Pickle, ops: seq<Op>) returns (ok: bool)
    requires p.Owned() && p.Payload() == [] && p.variableBufferOffset == 0 && WithinLimits(ops)
    modifies p, p.header
    ensures p.refused == (old(p.refused) || !ok)
    ensures FitsInto(ops, old(p.capacity) - old(p.headerSize)) ==> ok
    ensures p.Owned() && (p.header == old(p.header) || fresh(p.header))
    ensures ok ==> Laid(p.Payload(), AllChunks(MeantAll(ops))) && ReadsAs(p.AsView(), MeantAll(ops))
  {
    hide End, Chunks, Start, ReadAll, F.ReadInt, FitsOp, Meant, Peak;
    EmptyLaid();
    ghost var vs := MeantAll(ops);
    var k := 0;
    while k < |ops|
      invariant 0 <= k <= |ops| && p.Owned() && (p.header == old(p.header) || fresh(p.header))
      invariant p.refused == old(p.refused) && p.headerSize == old(p.headerSize) && old(p.capacity) <= p.capacity
      invariant Laid(p.Payload(), AllChunks(vs[..k]))
      invariant (forall j :: 0 <= j < k ==> ops[j].Typed?) ==> p.variableBufferOffset == 0
    {
      NextChunks(vs, k);
      ok := WriteOp(p, ops[k], AllChunks(vs[..k]));
      if !ok {
        return;
      }
      k := k + 1;
    }
    assert vs[..k] == vs;
    p.ViewShows(AllChunks(vs));
    RoundTrip(p.AsView(), vs);
    ok := true;
  }

  lemma EmptyLaid()
    ensures Laid([], []) && AllChunks([]) == []
  {
  }

  /** A copy reads like the original. */
  method CopyAndRead(p: Pickle, ghost vs: seq<Value>) returns (q: Pickle)
    requires p.Owned() && ReadsAs(p.AsView(), vs)
    ensures q.Owned() && fresh(q) && ReadsAs(q.AsView(), vs)
  {
    q := new Pickle.Copy(p);
  }

  /** A read-only pickle over data() and size() shows exactly what the owner shows. */
  method Reopen(p: Pickle) returns (data: array<byte>, q: Pickle)
    requires p.Owned() && p.EndOfPayload() <= INT_MAX
    ensures fresh(data) && fresh(q) && q.ReadOnly() && data[..] == p.AsView().bytes && q.AsView() == p.AsView()
  {
    hide AlignInt, Align4, FromLittle;
    var size := p.EndOfPayload();
    ghost var word := p.header[..4];
    assert size == p.headerSize + FromLittle(word);
    data := new byte[size];
    forall i | 0 <= i < size {
      data[i] := p.header[i];
    }
    assert data[..] == p.header[..size];
    assert data[..4] == data[..][..4] == p.header[..size][..4] == p.header[..4];
    assert data[..4] == word;
    q := new Pickle.FromData(data, size);
    assert data[..size] == data[..];
  }

  /** FindNext: the end of the pickle that starts a range, or NO_MEMORY when the range is too short. */
  function FindNext(headerSize: nat, range: Bytes): int
    requires 4 <= headerSize <= PAYLOAD_UNIT && headerSize % 4 == 0 && |range| >= 4
  {
    var payloadEnd := headerSize + FromLittle(range[..4]);
    if payloadEnd > |range| then NO_MEMORY else payloadEnd
  }

  /** In a stream that begins with a complete pickle, FindNext returns its end. */
  lemma FindNextOfPickle(p: Pickle, rest: Bytes)
    requires p.Owned() && p.headerSize <= PAYLOAD_UNIT
    ensures FindNext(p.headerSize, p.AsView().bytes + rest) == |p.AsView().bytes|
    ensures forall n :: 4 <= n < |p.AsView().bytes| ==> FindNext(p.headerSize, p.AsView().bytes[..n]) == NO_MEMORY
  {
    hide FromLittle;
    var b := p.AsView().bytes;
    assert (b + rest)[..4] == p.header[..4];
    forall n | 4 <= n < |b|
      ensures FindNext(p.headerSize, b[..n]) == NO_MEMORY
    {
      assert b[..n][..4] == p.header[..4];
    }
  }

  lemma EndOf(p: Bytes, chunks: seq<Bytes>)
    requires Laid(p, chunks)
    ensures |p| == End(chunks)
  {
  }

  lemma AfterWord(chunks: seq<Bytes>, word: Bytes)
    requires |word| == 4
    ensures End(chunks + [word]) == Start(chunks, |chunks|) + 4 && Align4(End(chunks + [word])) == End(chunks + [word])
  {
    hide AlignInt, Align4, Start;
    StartAppend(chunks, [word], |chunks|);
    SumOfFours(Start(chunks, |chunks|), 4);
    AlignFixed(Start(chunks, |chunks|) + 4);
  }

  lemma Sliced(a: array<byte>, from: nat, to: nat)
    requires from <= to <= a.Length
    ensures a[from..to] == a[..][from..to]
  {
  }

  /** An array that begins with the given bytes has their parts. */
  lemma SameParts(a: array<byte>, was: Bytes, n: nat, at: nat)
    requires 4 <= at <= n <= |was| <= a.Length && a[..|was|] == was
    ensures a[..4] == was[..4] && a[..n] == was[..n] && a[4..n] == was[4..n] && a[at..n] == was[at..n]
  {
    FrontParts(a, |was|, at);
    assert a[..n] == a[..|was|][..n] && a[4..n] == a[..|was|][4..n] && a[at..n] == a[..|was|][at..n];
  }

  /** The parts of the front of an array are parts of the array. */
  lemma FrontParts(a: array<byte>, n: nat, at: nat)
    requires 4 <= at <= n <= a.Length
    ensures a[..4] == a[..n][..4] && a[4..n] == a[..n][4..] == a[4..][..n - 4]
    ensures a[at..n] == a[..n][at..] == a[4..n][at - 4..] && a[..at] == a[..n][..at]
  {
  }

  lemma Subslice(b: Bytes, from: nat, size: nat, at: nat, n: nat)
    requires from + size <= |b| && at + n <= size
    ensures b[from..from + size][at..at + n] == b[from + at..from + at + n]
  {
    var x, y := b[from..from + size][at..at + n], b[from + at..from + at + n];
    forall i | 0 <= i < n
      ensures x[i] == y[i]
    {
      assert b[from..from + size][at + i] == b[from + at + i];
    }
    assert x == y;
  }

  /** The payload after its size and one word have been rewritten in place. */
  lemma RewrittenWord(p: Bytes, tail: Bytes, now: Bytes, headerSize: nat, at: nat, word: Bytes, n: nat)
    requires 4 <= headerSize && |word| == 4 && at + 4 + n <= |p| && headerSize + |p| <= |now| == |tail| + 4
    requires tail[headerSize - 4..headerSize - 4 + |p|] == p
    requires now[headerSize + at..headerSize + at + 4] == word
    requires forall i :: 4 <= i < |now| && !(headerSize + at <= i < headerSize + at + 4) ==> now[i] == tail[i - 4]
    ensures Trimmed(p, now[headerSize..headerSize + at + 4 + n], at, word, n)
  {
    var p' := now[headerSize..headerSize + at + 4 + n];
    forall i | 0 <= i < |p'| && !(at <= i < at + 4)
      ensures p'[i] == p[i]
    {
      assert p[i] == tail[headerSize - 4..headerSize - 4 + |p|][i];
    }
    forall i | 0 <= i < 4
      ensures p'[at..at + 4][i] == word[i]
    {
      assert now[headerSize + at..headerSize + at + 4][i] == now[headerSize + at + i];
    }
  }

  /** Trimming the last buffer gives the layout of what is kept. */
  lemma TrimmedLast(p: Bytes, p': Bytes, chunks: seq<Bytes>, data: Bytes, kept: int32)
    requires 0 <= kept <= |data| <= INT_MAX && Laid(p, chunks + [EncodeInt(|data|), data])
    requires Trimmed(p, p', Start(chunks, |chunks|), EncodeInt(kept), |p| - Start(chunks, |chunks|) - 4 - (|data| - kept))
    ensures Laid(p', chunks + [EncodeInt(kept), data[..kept]])
  {
    hide AlignInt, Align4, Start, EncodeInt, Laid, Trimmed;
    assert chunks + [EncodeInt(|data|), data] + [] == chunks + [EncodeInt(|data|), data];
    TrimBounds(p, chunks, EncodeInt(|data|), data, []);
    LaidTrim(p, p', chunks, EncodeInt(|data|), EncodeInt(kept), data, kept);
  }

  lemma TrimBounds(p: Bytes, chunks: seq<Bytes>, word: Bytes, data: Bytes, later: seq<Bytes>)
    requires |word| == 4 && Laid(p, chunks + [word, data] + later)
    ensures var at := Start(chunks, |chunks|); at + 4 + |data| <= |p| && p[at..at + 4] == word
    ensures later == [] ==> Start(chunks, |chunks|) + 4 + |data| == |p|
  {
    hide Align4, Start;
    var all, at, n := chunks + [word, data] + later, Start(chunks, |chunks|), |chunks|;
    SecondLast(chunks, word, data);
    StartAppend(chunks + [word, data], later, n);
    StartAppend(chunks + [word, data], later, n + 1);
    assert all[n] == word && all[n + 1] == data;
    assert At(p, Start(all, n), all[n]) && At(p, Start(all, n + 1), all[n + 1]);
    if later == [] {
      assert all == chunks + [word, data];
    }
  }

  lemma AppendToAligned(p: Bytes, chunks: seq<Bytes>, word: Bytes, data: Bytes)
    requires |word| == 4 && Laid(p, chunks + [word])
    ensures Laid(p + data, chunks + [word, data])
  {
    hide Start;
    AfterWord(chunks, word);
    LaidAppend(p, p + data, chunks + [word], data);
    assert chunks + [word] + [data] == chunks + [word, data];
  }

  /** Subtracting a payload that is too large wraps to a header size that is rejected. */
  lemma UnsignedSize(dataLen: int, payload: u32)
    requires dataLen <= INT_MAX
    ensures dataLen >= 4 && payload <= dataLen ==> (dataLen - payload) % WIDTH == dataLen - payload
    ensures dataLen >= 4 && payload > dataLen ==> (dataLen - payload) % WIDTH > dataLen
  {
  }

  /** The payload after the data has been written behind everything in front of it. */
  lemma FilledFront(front: Bytes, data: Bytes, p: Bytes)
    requires |front| == Align4(|p|) && front[..|p|] == p
    ensures Extends(p, front + data, data)
  {
    hide Align4;
    assert (front + data)[..|p|] == front[..|p|];
  }

  lemma FrontOfSlice(a: array<byte>, from: nat, mid: nat, to: nat)
    requires from <= mid <= to <= a.Length
    ensures a[from..to][..mid - from] == a[from..mid]
  {
  }

  lemma EndAppend(chunks: seq<Bytes>, data: Bytes)
    ensures End(chunks + [data]) == Align4(End(chunks)) + |data|
    ensures End(chunks) <= End(chunks + [data])
  {
    hide Align4, Start;
    StartAppend(chunks, [data], |chunks|);
    EndAligned(chunks);
  }

  /** In an allocation that is a multiple of four the padding of the last write fits too. */
  lemma RoomForPadding(headerSize: nat, offset: nat, length: nat, capacity: nat)
    requires headerSize % 4 == 0 && offset % 4 == 0 && capacity % 64 == 0
    requires headerSize + offset + length <= capacity
    ensures headerSize + offset + Align4(length) <= capacity
  {
    var m := capacity - headerSize - offset;
    assert m % 4 == 0 by { FoursLeft(headerSize, offset, capacity); }
    AlignWithin(length, m);
  }

  lemma FoursLeft(a: nat, b: nat, c: nat)
    requires a % 4 == 0 && b % 4 == 0 && c % 64 == 0 && a + b <= c
    ensures (c - a - b) % 4 == 0
  {
    assert c == 4 * (16 * (c / 64));
  }
}

/** Bytes, 32-bit words, their wrap-around and their byte orders. */
module Words {

  type byte = x: int | 0 <= x < 0x100

  const WIDTH := 0x1_0000_0000

  type u32 = x: int | 0 <= x < WIDTH

  /** An unsigned 32-bit sum may be reduced at every addition or once at the end. */
  lemma WrappedSum(x: int, d: int)
    ensures (x % WIDTH + d) % WIDTH == (x + d) % WIDTH
  {
    var q, r := (x % WIDTH + d) / WIDTH, (x % WIDTH + d) % WIDTH;
    assert x + d == WIDTH * (x / WIDTH + q) + r;
  }

  /** The byte order of the machine the code runs on. */
  datatype Machine = LittleEndian | BigEndian

  function FromLittle(b: seq<byte>): u32
    requires |b| == 4
  {
    var b0: int, b1: int, b2: int, b3: int := b[0], b[1], b[2], b[3];
    b0 + 0x100 * (b1 + 0x100 * (b2 + 0x100 * b3))
  }

  function ToLittle(w: u32): (b: seq<byte>)
    ensures |b| == 4 && FromLittle(b) == w
  {
    var q1: int := w / 0x100;
    var q2: int := q1 / 0x100;
    var q3: int := q2 / 0x100;
    [w % 0x100, q1 % 0x100, q2 % 0x100, q3]
  }

  lemma FromToLittle(b: seq<byte>)
    requires |b| == 4
    ensures ToLittle(FromLittle(b)) == b
  {
    var w: int := FromLittle(b);
    var b0: int, b1: int, b2: int, b3: int := b[0], b[1], b[2], b[3];
    assert w / 0x100 == b1 + 0x100 * (b2 + 0x100 * b3);
    assert w / 0x100 / 0x100 == b2 + 0x100 * b3;
    assert w / 0x100 / 0x100 / 0x100 == b3;
  }

  function Reversed4(b: seq<byte>): (r: seq<byte>)
    requires |b| == 4
    ensures |r| == 4
  {
    [b[3], b[2], b[1], b[0]]
  }

  /** A word as it lies in the memory of machine m, and back. */
  function Store(m: Machine, w: u32): (b: seq<byte>)
    ensures |b| == 4
  {
    if m.LittleEndian? then ToLittle(w) else Reversed4(ToLittle(w))
  }

  function Load(m: Machine, b: seq<byte>): u32
    requires |b| == 4
  {
    FromLittle(if m.LittleEndian? then b else Reversed4(b))
  }

  lemma LoadStore(m: Machine, w: u32)
    ensures Load(m, Store(m, w)) == w
  {
    assert Reversed4(Reversed4(ToLittle(w))) == ToLittle(w);
  }
}

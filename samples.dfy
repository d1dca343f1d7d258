// Assembly of multi-byte output samples from the bytes of a burst read.
//
// The device stores every multi-byte output least significant byte first.
// The driver reassembles the 32-bit timestamp with unsigned arithmetic and
// each axis, and the temperature, as a 16-bit two's-complement word. Bytes
// are taken here as their unsigned values 0..255.

module Samples {

  /** The unsigned value of one byte. */
  type byte = x: int | 0 <= x < 256

  /**
   * The 32-bit timestamp of the four bytes TIMESTAMP0..3, accumulated from the
   * top byte down as the driver does.
   */
  function Timestamp(b: seq<byte>): (r: nat)
    requires |b| == 4
    ensures r < 0x1_0000_0000
    ensures r == b[0] as int + 0x100 * b[1] as int + 0x1_0000 * b[2] as int + 0x100_0000 * b[3] as int
  {
    ((b[3] as int * 256 + b[2] as int) * 256 + b[1] as int) * 256 + b[0] as int
  }

  /** The four little-endian bytes of a 32-bit value: the inverse of Timestamp. */
  function TimestampBytes(t: nat): (b: seq<byte>)
    requires t < 0x1_0000_0000
    ensures |b| == 4
  {
    var q1 := t / 256;
    var q2 := q1 / 256;
    [t % 256, q1 % 256, q2 % 256, q2 / 256]
  }

  lemma TimestampOfBytes(t: nat)
    requires t < 0x1_0000_0000
    ensures Timestamp(TimestampBytes(t)) == t
  {
    var q1 := t / 256;
    var q2 := q1 / 256;
    assert q2 == 256 * (q2 / 256) + q2 % 256;
    assert q1 == 256 * q2 + q1 % 256;
    assert t == 256 * q1 + t % 256;
  }

  lemma BytesOfTimestamp(b: seq<byte>)
    requires |b| == 4
    ensures TimestampBytes(Timestamp(b)) == b
  {
    var t := Timestamp(b);
    var q2: int := b[2] as int + 256 * b[3] as int;
    var q1: int := b[1] as int + 256 * q2;
    assert t / 256 == q1 && t % 256 == b[0] by {
      assert t == b[0] as int + 256 * q1;
      Digit(b[0], q1);
    }
    assert q1 / 256 == q2 && q1 % 256 == b[1] by { Digit(b[1], q2); }
    assert q2 / 256 == b[3] && q2 % 256 == b[2] by { Digit(b[2], b[3]); }
  }

  /** A digit below 256 and a quotient recombine uniquely. */
  lemma Digit(d: nat, q: nat)
    requires d < 256
    ensures (d + 256 * q) / 256 == q && (d + 256 * q) % 256 == d
  {
  }

  /**
   * The value the driver stores in an int16_t from a low and a high byte:
   * hi * 256 + lo converted to 16 bits, which wraps into the negative range
   * when the top bit of `hi` is set.
   */
  function Int16(lo: byte, hi: byte): (r: int)
    ensures -0x8000 <= r < 0x8000
    ensures (r < 0) <==> (hi >= 0x80)
    ensures r == hi * 256 + lo || r == hi * 256 + lo - 0x1_0000
  {
    var w := hi * 256 + lo;
    if w >= 0x8000 then w - 0x1_0000 else w
  }

  /** The low and high bytes of a 16-bit two's-complement value. */
  function Int16Bytes(x: int): (b: (byte, byte))
    requires -0x8000 <= x < 0x8000
  {
    var w := if x < 0 then x + 0x1_0000 else x;
    (w % 256, w / 256)
  }

  lemma Int16OfBytes(x: int)
    requires -0x8000 <= x < 0x8000
    ensures Int16(Int16Bytes(x).0, Int16Bytes(x).1) == x
  {
    var w := if x < 0 then x + 0x1_0000 else x;
    assert w == 256 * (w / 256) + w % 256;
  }

  lemma BytesOfInt16(lo: byte, hi: byte)
    ensures Int16Bytes(Int16(lo, hi)) == (lo, hi)
  {
    Digit(lo, hi);
  }

  /** One sample of a three-axis sensor. */
  datatype Axes = Axes(x: int, y: int, z: int)

  /** The three axes of the six output bytes: X then Y then Z, each low byte first. */
  function AxesOf(b: seq<byte>): (r: Axes)
    requires |b| == 6
  {
    Axes(Int16(b[0], b[1]), Int16(b[2], b[3]), Int16(b[4], b[5]))
  }

  predicate InRange(a: Axes)
  {
    -0x8000 <= a.x < 0x8000 && -0x8000 <= a.y < 0x8000 && -0x8000 <= a.z < 0x8000
  }

  /** The six output bytes of a sample. */
  function AxesBytes(a: Axes): (b: seq<byte>)
    requires InRange(a)
    ensures |b| == 6
  {
    var (xl, xh) := Int16Bytes(a.x);
    var (yl, yh) := Int16Bytes(a.y);
    var (zl, zh) := Int16Bytes(a.z);
    [xl, xh, yl, yh, zl, zh]
  }

  lemma AxesRoundTrip(b: seq<byte>)
    requires |b| == 6
    ensures InRange(AxesOf(b)) && AxesBytes(AxesOf(b)) == b
  {
    BytesOfInt16(b[0], b[1]);
    BytesOfInt16(b[2], b[3]);
    BytesOfInt16(b[4], b[5]);
  }

  lemma AxesOfBytes(a: Axes)
    requires InRange(a)
    ensures AxesOf(AxesBytes(a)) == a
  {
    Int16OfBytes(a.x);
    Int16OfBytes(a.y);
    Int16OfBytes(a.z);
  }
}

/** Byte-level helpers shared by the three FrSky telemetry encoders:
    the byte type, explicit little-endian splits of 16- and 32-bit values,
    and the serial transmit stream that every `TxChar` appends to. */
module FrSkyBytes {

  /** An octet as it travels on the serial line. */
  type byte = x: int | 0 <= x < 256

  datatype Option<+T> = None | Some(value: T)

  /** A `uint16` variable. */
  type uint16 = x: int | 0 <= x < 0x1_0000

  /** A `uint32` variable. */
  type uint32 = x: int | 0 <= x < 0x1_0000_0000

  const TwoTo16: int := 0x1_0000
  const TwoTo32: int := 0x1_0000_0000

  // The range of an `int32`.
  const Int32Min: int := -0x8000_0000
  const Int32Limit: int := 0x8000_0000

  /** An `int32` variable. */
  type int32 = x: int | -0x8000_0000 <= x < 0x8000_0000

  /** The magnitude of an integer, as C's `abs` gives it where it does
      not overflow. */
  function Abs(x: int): (r: nat)
    ensures r == x || r == -x
  {
    if x < 0 then -x else x
  }

  /** The two bytes of a 16-bit value, low byte first. Any integer is
      accepted: only its low 16 bits reach the wire, which models the
      implicit conversion to a 16-bit parameter. Dafny's `/` and `%` by a
      positive divisor floor, so for a negative `v` the bytes are those of
      its two's-complement form, as `(v >> 8) & 0xFF` gives them in C. */
  function LE16(v: int): (r: seq<byte>)
    ensures |r| == 2
    ensures r[0] as int + 256 * (r[1] as int) == v % TwoTo16
  {
    [v % 256, (v / 256) % 256]
  }

  /** The four bytes of a 32-bit value, low byte first; only the low 32
      bits of `v` reach the wire. */
  function LE32(v: int): (r: seq<byte>)
    ensures |r| == 4
    ensures r[0] as int + 256 * (r[1] as int) + 65536 * (r[2] as int) + 16777216 * (r[3] as int) == v % TwoTo32
  {
    var r := [v % 256, (v / 256) % 256, (v / 65536) % 256, (v / 16777216) % 256];
    LE32Value(v);
    r
  }

  lemma LE32Value(v: int)
    ensures v % 256 + 256 * ((v / 256) % 256) + 65536 * ((v / 65536) % 256)
            + 16777216 * ((v / 16777216) % 256) == v % TwoTo32
  {
    var a := v / 256;
    var b := a / 256;
    var c := b / 256;
    assert v / 65536 == b;
    assert v / 16777216 == c;
    assert v == 256 * a + v % 256;
    assert a == 256 * b + a % 256;
    assert b == 256 * c + b % 256;
    var low := v % 256 + 256 * (a % 256) + 65536 * (b % 256) + 16777216 * (c % 256);
    assert c == 256 * (c / 256) + c % 256;
    assert v == low + TwoTo32 * (c / 256) by {
      assert v == v % 256 + 256 * (a % 256) + 65536 * b;
      assert 65536 * b == 65536 * (b % 256) + 16777216 * c;
      assert 16777216 * c == 16777216 * (c % 256) + TwoTo32 * (c / 256);
    }
    assert 0 <= low < TwoTo32;
  }

  /** Reads back a little-endian 16-bit value. */
  function FromLE16(r: seq<byte>): (v: int)
    requires |r| == 2
    ensures 0 <= v < TwoTo16
  {
    r[0] as int + 256 * (r[1] as int)
  }

  /** Reads back a little-endian 32-bit value. */
  function FromLE32(r: seq<byte>): (v: int)
    requires |r| == 4
    ensures 0 <= v < TwoTo32
  {
    r[0] as int + 256 * (r[1] as int) + 65536 * (r[2] as int) + 16777216 * (r[3] as int)
  }

  /** Splitting then reading back gives the value's low 16 bits. */
  lemma LE16RoundTrip(v: int)
    ensures FromLE16(LE16(v)) == v % TwoTo16
    ensures 0 <= v < TwoTo16 ==> FromLE16(LE16(v)) == v
  {
  }

  /** Splitting then reading back gives the value's low 32 bits. */
  lemma LE32RoundTrip(v: int)
    ensures FromLE32(LE32(v)) == v % TwoTo32
    ensures 0 <= v < TwoTo32 ==> FromLE32(LE32(v)) == v
  {
  }

  /** A positive multiple of `d` is at least `d`. */
  lemma {:induction false} MulAtLeast(d: int, k: int)
    requires 0 < d && 1 <= k
    ensures d <= d * k
    decreases k
  {
    if k > 1 {
      MulAtLeast(d, k - 1);
      assert d * k == d * (k - 1) + d;
    }
  }

  /** Quotient and remainder are the only ones with a remainder in range. */
  lemma DivModUnique(x: int, d: int, q: int, r: int)
    requires 0 <= r < d && x == d * q + r
    ensures x / d == q && x % d == r
  {
    var k := q - x / d;
    assert d * k == x % d - r;
    if k >= 1 {
      MulAtLeast(d, k);
    } else if k <= -1 {
      MulAtLeast(d, -k);
    }
  }

  /** Reducing the left operand first does not change a sum's remainder. */
  lemma ModAddLeft(a: int, b: int, d: int)
    requires 0 < d
    ensures (a % d + b) % d == (a + b) % d
  {
    var q, r := a / d, a % d;
    var q2, r2 := (r + b) / d, (r + b) % d;
    assert r + b == d * q2 + r2;
    DivModUnique(a + b, d, q + q2, r2);
  }

  /** Regrouping appended output: writing `b` and then `c` after `a` is
      writing `b + c` after `a`. */
  lemma Append(a: seq<byte>, b: seq<byte>, c: seq<byte>)
    ensures a + b + c == a + (b + c)
  {
  }

  /** The same regrouping for six writes in a row. */
  lemma AppendSix(s0: seq<byte>, a: seq<byte>, b: seq<byte>, c: seq<byte>, d: seq<byte>, e: seq<byte>, f: seq<byte>)
    ensures s0 + a + b + c + d + e + f == s0 + (a + b + c + d + e + f)
  {
  }

  /** The serial transmit stream of one port: everything `TxChar` has
      written, in order. */
  class TxPort {
    var sent: seq<byte>

    constructor ()
      ensures sent == []
    {
      sent := [];
    }

    /** Writes one byte to the port. */
    method TxChar(c: byte)
      modifies this
      ensures sent == old(sent) + [c]
    {
      sent := sent + [c];
    }
  }
}

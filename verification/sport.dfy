/** The FrSky SmartPort telemetry encoder derived from CleanFlight.

    The receiver polls sensors with 0x7E followed by a sensor id. When this
    sensor's id (0x1B) is polled, the encoder answers with one frame: 0x10,
    a 16-bit data id and a 32-bit value, both low byte first, and a
    checksum byte. Inside a frame 0x7D and 0x7E are escaped as 0x7D followed
    by the byte XOR 0x20. A zero-terminated round-robin table chooses the
    data id that answers each poll. */
module FrSkySPort {
  import opened FrSkyBytes

  const StartStop: byte := 0x7E
  const ByteStuff: byte := 0x7D
  const DataFrame: byte := 0x10
  const SensorId1: byte := 0x1B

  // ---------------------------------------------------------------------
  // Escaping

  function Xor20(c: byte): byte
  {
    ((c as bv8) ^ 0x20) as int
  }

  /** The byte `FrSkySPortSendByte` writes last for `c`: `c` itself, or
      `c XOR 0x20` after an escape. This is also the value it adds into the
      checksum. */
  function Wire(c: byte): (w: byte)
    ensures w != StartStop && w != ByteStuff
  {
    if c == 0x7D then 0x5D else if c == 0x7E then 0x5E else c
  }

  /** The bytes written for one frame byte: 0x7D and 0x7E become 0x7D
      followed by the byte XOR 0x20. */
  function Escape(c: byte): (r: seq<byte>)
    ensures StartStop !in r
    ensures |r| == if c == ByteStuff || c == StartStop then 2 else 1
  {
    if c == 0x7D then [0x7D, 0x5D] else if c == 0x7E then [0x7D, 0x5E] else [c]
  }

  /** An escaped byte is the marker and the byte XOR 0x20; the receiver's
      XOR gives it back. */
  lemma EscapeUndone(c: byte)
    ensures var r := Escape(c);
      && (|r| == 1 ==> r == [c])
      && (|r| == 2 ==> r[0] == ByteStuff && r[1] == Xor20(c) && Xor20(r[1]) == c)
      && r[|r| - 1] == Wire(c)
  {
  }

  function EscapeAll(bs: seq<byte>): (r: seq<byte>)
    ensures StartStop !in r
    ensures |bs| <= |r| <= 2 * |bs|
  {
    if bs == [] then [] else Escape(bs[0]) + EscapeAll(bs[1..])
  }

  /** The receiver's view of an escaped run: `None` when it holds a raw
      0x7E or ends with a lone escape byte. */
  function Unescape(s: seq<byte>): (r: Option<seq<byte>>)
    decreases |s|
  {
    if s == [] then Some([])
    else if s[0] == StartStop then None
    else if s[0] == ByteStuff then
      if |s| < 2 then None
      else match Unescape(s[2..]) {
        case None => None
        case Some(rest) => Some([Xor20(s[1])] + rest)
      }
    else match Unescape(s[1..]) {
      case None => None
      case Some(rest) => Some([s[0]] + rest)
    }
  }

  lemma {:induction false} EscapeAllAppend(a: seq<byte>, b: seq<byte>)
    ensures EscapeAll(a + b) == EscapeAll(a) + EscapeAll(b)
  {
    if a == [] {
      assert a + b == b;
    } else {
      EscapeAllAppend(a[1..], b);
      assert (a + b)[1..] == a[1..] + b;
      assert EscapeAll(a + b) == Escape(a[0]) + EscapeAll(a[1..] + b);
      Append(Escape(a[0]), EscapeAll(a[1..]), EscapeAll(b));
    }
  }

  /** Escaping a run is undone by the receiver. */
  lemma {:induction false} EscapeAllRoundTrip(bs: seq<byte>)
    ensures Unescape(EscapeAll(bs)) == Some(bs)
  {
    if bs != [] {
      EscapeAllRoundTrip(bs[1..]);
      var head, tail := Escape(bs[0]), EscapeAll(bs[1..]);
      EscapeUndone(bs[0]);
      assert EscapeAll(bs) == head + tail;
      if |head| == 2 {
        assert (head + tail)[2..] == tail;
      } else {
        assert (head + tail)[1..] == tail;
      }
      assert [bs[0]] + bs[1..] == bs;
    }
  }

  // ---------------------------------------------------------------------
  // Checksum

  /** One checksum step of `FrSkySPortSendByte` from a checksum that fits
      a byte: addition with end-around carry. */
  function Fold(crc: byte, c: byte): byte
  {
    if crc + c > 0xFF then crc + c - 0xFF else crc + c
  }

  /** A step keeps the sum modulo 255. */
  lemma FoldResidue(crc: byte, c: byte)
    ensures Fold(crc, c) % 255 == (crc + c) % 255
  {
  }

  /** The checksum after sending `bs` from `crc`: each byte folded in as it
      is written, that is, after escaping. */
  function CrcFrom(crc: byte, bs: seq<byte>): byte
    decreases |bs|
  {
    if bs == [] then crc else CrcFrom(Fold(crc, Wire(bs[0])), bs[1..])
  }

  /** Folding byte by byte as the sender does equals folding the whole run. */
  lemma {:induction false} CrcSnoc(crc: byte, bs: seq<byte>, x: byte)
    ensures CrcFrom(crc, bs + [x]) == Fold(CrcFrom(crc, bs), Wire(x))
    decreases |bs|
  {
    if bs == [] {
      assert bs + [x] == [x];
    } else {
      assert (bs + [x])[1..] == bs[1..] + [x];
      CrcSnoc(Fold(crc, Wire(bs[0])), bs[1..], x);
    }
  }

  /** The plain sum of the values folded into the checksum. */
  function WireSum(bs: seq<byte>): nat
  {
    if bs == [] then 0 else Wire(bs[0]) + WireSum(bs[1..])
  }

  /** The checksum is the end-around-carry (ones' complement) sum of the
      written values. */
  lemma {:induction false} CrcResidue(crc: byte, bs: seq<byte>)
    ensures CrcFrom(crc, bs) % 255 == (crc + WireSum(bs)) % 255
    decreases |bs|
  {
    if bs != [] {
      var f := Fold(crc, Wire(bs[0]));
      CrcResidue(f, bs[1..]);
      FoldResidue(crc, Wire(bs[0]));
      ModAdd(f, crc + Wire(bs[0]), WireSum(bs[1..]));
    }
  }

  lemma ModAdd(a: int, b: int, x: int)
    requires a % 255 == b % 255
    ensures (a + x) % 255 == (b + x) % 255
  {
    assert a - b == 255 * ((a - b) / 255);
  }

  // ---------------------------------------------------------------------
  // Frames

  /** The frame before escaping, without its checksum byte. */
  function FrameBody(id: int, val: int): (r: seq<byte>)
    ensures |r| == 7 && r[0] == DataFrame
    ensures r[1..3] == LE16(id) && r[3..] == LE32(val)
  {
    [DataFrame] + LE16(id) + LE32(val)
  }

  /** `TxFrSkySPort`: the escaped body, then `0xFF - crc`, escaped but not
      folded. The id is an `uint16` and the value an `uint32`: only their
      low 16 and 32 bits reach the wire. */
  function SPortFrame(id: int, val: int): (r: seq<byte>)
    ensures StartStop !in r
    ensures 8 <= |r| <= 16
  {
    var body := FrameBody(id, val);
    EscapeAll(body) + Escape(0xFF - CrcFrom(0, body))
  }

  /** A receiver that checks the data-frame byte and the checksum with the
      sender's own `CrcFrom`: over the values after the escape XOR, not
      over the unescaped bytes (see `CrcResidue` for what that sum is). */
  function DecodeFrame(w: seq<byte>): (r: Option<(int, int)>)
    ensures r.Some? ==> 0 <= r.value.0 < TwoTo16 && 0 <= r.value.1 < TwoTo32
  {
    match Unescape(w) {
      case None => None
      case Some(b) =>
        if |b| == 8 && b[0] == DataFrame && b[7] == 0xFF - CrcFrom(0, b[..7])
        then Some((FromLE16(b[1..3]), FromLE32(b[3..7])))
        else None
    }
  }

  /** Every frame is accepted and gives back its id and value. */
  lemma FrameRoundTrip(id: int, val: int)
    ensures DecodeFrame(SPortFrame(id, val)) == Some((id % TwoTo16, val % TwoTo32))
  {
    var body := FrameBody(id, val);
    var check: byte := 0xFF - CrcFrom(0, body);
    assert EscapeAll([check]) == Escape(check) + EscapeAll([]);
    EscapeAllAppend(body, [check]);
    EscapeAllRoundTrip(body + [check]);
    var b := body + [check];
    assert SPortFrame(id, val) == EscapeAll(b);
    assert Unescape(SPortFrame(id, val)) == Some(b);
    assert b[..7] == body && b[1..3] == LE16(id) && b[3..7] == LE32(val) && b[7] == check;
    LE16RoundTrip(id);
    LE32RoundTrip(val);
  }

  /** Sending byte `k` of a run extends what was written and the checksum
      by that byte. */
  lemma NextByte(bs: seq<byte>, k: nat)
    requires k < |bs|
    ensures EscapeAll(bs[..k]) + Escape(bs[k]) == EscapeAll(bs[..k + 1])
    ensures Fold(CrcFrom(0, bs[..k]), Wire(bs[k])) == CrcFrom(0, bs[..k + 1])
  {
    assert bs[..k + 1] == bs[..k] + [bs[k]];
    assert EscapeAll([bs[k]]) == Escape(bs[k]) + EscapeAll([]);
    EscapeAllAppend(bs[..k], [bs[k]]);
    CrcSnoc(0, bs[..k], bs[k]);
  }

  method FrSkySPortSendByte(port: TxPort, c: byte, crc: Option<uint16>) returns (crcOut: Option<uint16>)
    modifies port
    ensures port.sent == old(port.sent) + Escape(c)
    ensures crc.None? ==> crcOut.None?
    ensures crc.Some? ==> crcOut.Some? && crcOut.value <= 0xFF
    ensures crc.Some? && crc.value <= 0xFF ==> crcOut == Some(Fold(crc.value, Wire(c)))
  {
    var w := c;
    if c == 0x7D || c == 0x7E {
      port.TxChar(0x7D);
      w := Xor20(c);
    }
    port.TxChar(w);
    EscapeUndone(c);
    crcOut := None;
    if crc.Some? {
      var sum := (crc.value + w) % TwoTo16;
      sum := (sum + sum / 256) % TwoTo16;
      crcOut := Some(sum % 256);
      FoldIn16Bits(crc.value, w);
    }
  }

  /** The 16-bit arithmetic of `FrSkySPortSendByte` performs `Fold` on a
      checksum that fits a byte. */
  lemma FoldIn16Bits(crc: uint16, c: byte)
    ensures crc <= 0xFF ==>
      var sum := (crc + c) % TwoTo16;
      ((sum + sum / 256) % TwoTo16) % 256 == Fold(crc, c)
  {
    if crc <= 0xFF {
      var sum := (crc + c) % TwoTo16;
      assert sum == crc + c;
      if sum > 0xFF {
        assert sum / 256 == 1;
      } else {
        assert sum / 256 == 0;
      }
    }
  }

  /** `TxFrSkySPort`: eight calls of `FrSkySPortSendByte`, the last one
      without a checksum. */
  method TxFrSkySPort(port: TxPort, id: int, val: int)
    modifies port
    ensures port.sent == old(port.sent) + SPortFrame(id, val)
  {
    ghost var s0 := port.sent;
    var idBytes := LE16(id);
    var valBytes := LE32(val);
    var crc: Option<uint16> := Some(0);
    crc := FrSkySPortSendByte(port, DataFrame, crc);
    ghost var sent := Escape(DataFrame);
    ghost var sum: byte := Fold(0, Wire(DataFrame));
    assert crc == Some(sum) && port.sent == s0 + sent;
    crc := FrSkySPortSendByte(port, idBytes[0], crc);
    Append(s0, sent, Escape(idBytes[0]));
    sent, sum := sent + Escape(idBytes[0]), Fold(sum, Wire(idBytes[0]));
    assert crc == Some(sum) && port.sent == s0 + sent;
    crc := FrSkySPortSendByte(port, idBytes[1], crc);
    Append(s0, sent, Escape(idBytes[1]));
    sent, sum := sent + Escape(idBytes[1]), Fold(sum, Wire(idBytes[1]));
    assert crc == Some(sum) && port.sent == s0 + sent;
    crc := FrSkySPortSendByte(port, valBytes[0], crc);
    Append(s0, sent, Escape(valBytes[0]));
    sent, sum := sent + Escape(valBytes[0]), Fold(sum, Wire(valBytes[0]));
    assert crc == Some(sum) && port.sent == s0 + sent;
    crc := FrSkySPortSendByte(port, valBytes[1], crc);
    Append(s0, sent, Escape(valBytes[1]));
    sent, sum := sent + Escape(valBytes[1]), Fold(sum, Wire(valBytes[1]));
    assert crc == Some(sum) && port.sent == s0 + sent;
    crc := FrSkySPortSendByte(port, valBytes[2], crc);
    Append(s0, sent, Escape(valBytes[2]));
    sent, sum := sent + Escape(valBytes[2]), Fold(sum, Wire(valBytes[2]));
    assert crc == Some(sum) && port.sent == s0 + sent;
    crc := FrSkySPortSendByte(port, valBytes[3], crc);
    Append(s0, sent, Escape(valBytes[3]));
    sent, sum := sent + Escape(valBytes[3]), Fold(sum, Wire(valBytes[3]));
    assert crc == Some(sum) && port.sent == s0 + sent;
    var check := 0xFF - crc.value % 256;
    assert check == 0xFF - sum;
    crc := FrSkySPortSendByte(port, check, None);
    Append(s0, sent, Escape(check));
    FrameBytes(id, val);
  }

  /** A frame byte by byte, as `TxFrSkySPort` writes it. */
  lemma FrameBytes(id: int, val: int)
    ensures var i, v := LE16(id), LE32(val);
      var crc := Fold(Fold(Fold(Fold(Fold(Fold(Fold(0, Wire(DataFrame)), Wire(i[0])), Wire(i[1])),
                                          Wire(v[0])), Wire(v[1])), Wire(v[2])), Wire(v[3]));
      SPortFrame(id, val)
      == Escape(DataFrame) + Escape(i[0]) + Escape(i[1]) + Escape(v[0]) + Escape(v[1])
         + Escape(v[2]) + Escape(v[3]) + Escape(0xFF - crc)
  {
    FrameEscapes(id, val);
    FrameChecksum(id, val);
  }

  lemma FrameEscapes(id: int, val: int)
    ensures var i, v := LE16(id), LE32(val);
      EscapeAll(FrameBody(id, val))
      == Escape(DataFrame) + Escape(i[0]) + Escape(i[1]) + Escape(v[0]) + Escape(v[1])
         + Escape(v[2]) + Escape(v[3])
  {
    var body := FrameBody(id, val);
    var i, v := LE16(id), LE32(val);
    assert body[0] == DataFrame && body[1] == i[0] && body[2] == i[1] && body[3] == v[0];
    assert body[4] == v[1] && body[5] == v[2] && body[6] == v[3];
    EscapeSeven(body);
  }

  lemma FrameChecksum(id: int, val: int)
    ensures var i, v := LE16(id), LE32(val);
      CrcFrom(0, FrameBody(id, val))
      == Fold(Fold(Fold(Fold(Fold(Fold(Fold(0, Wire(DataFrame)), Wire(i[0])), Wire(i[1])),
                                          Wire(v[0])), Wire(v[1])), Wire(v[2])), Wire(v[3]))
  {
    var body := FrameBody(id, val);
    var i, v := LE16(id), LE32(val);
    assert body[0] == DataFrame && body[1] == i[0] && body[2] == i[1] && body[3] == v[0];
    assert body[4] == v[1] && body[5] == v[2] && body[6] == v[3];
    CrcSeven(body);
  }

  lemma EscapeSeven(bs: seq<byte>)
    requires |bs| == 7
    ensures EscapeAll(bs) == Escape(bs[0]) + Escape(bs[1]) + Escape(bs[2]) + Escape(bs[3])
                             + Escape(bs[4]) + Escape(bs[5]) + Escape(bs[6])
  {
    assert bs[..0] == [] && bs[..7] == bs;
    NextByte(bs, 0);
    assert EscapeAll(bs[..1]) == Escape(bs[0]);
    NextByte(bs, 1);
    NextByte(bs, 2);
    NextByte(bs, 3);
    NextByte(bs, 4);
    NextByte(bs, 5);
    NextByte(bs, 6);
  }

  lemma CrcSeven(bs: seq<byte>)
    requires |bs| == 7
    ensures CrcFrom(0, bs)
            == Fold(Fold(Fold(Fold(Fold(Fold(Fold(0, Wire(bs[0])), Wire(bs[1])), Wire(bs[2])),
                                   Wire(bs[3])), Wire(bs[4])), Wire(bs[5])), Wire(bs[6]))
  {
    assert bs[..0] == [] && bs[..7] == bs;
    NextByte(bs, 0);
    NextByte(bs, 1);
    NextByte(bs, 2);
    NextByte(bs, 3);
    NextByte(bs, 4);
    NextByte(bs, 5);
    NextByte(bs, 6);
  }

  // ---------------------------------------------------------------------
  // Data ids and the round-robin table

  const IdSpeed: uint16 := 0x0830
  const IdVfas: uint16 := 0x0210
  const IdCurrent: uint16 := 0x0200
  const IdAltitude: uint16 := 0x0100
  const IdFuel: uint16 := 0x0600
  const IdLatLong: uint16 := 0x0800
  const IdVario: uint16 := 0x0110
  const IdCells: uint16 := 0x0300
  const IdHeading: uint16 := 0x0840
  const IdAccX: uint16 := 0x0700
  const IdAccY: uint16 := 0x0710
  const IdAccZ: uint16 := 0x0720
  const IdT1: uint16 := 0x0400
  const IdT2: uint16 := 0x0410
  const IdGpsAlt: uint16 := 0x0820
  const IdA4: uint16 := 0x0910

  /** `frSkyDataIdTable`: the data ids in the order they answer polls,
      LATLONG twice, ended by 0. */
  const IdTable: seq<uint16> :=
    [IdSpeed, IdVfas, IdCurrent, IdAltitude, IdFuel, IdLatLong, IdLatLong, IdVario, IdCells,
     IdHeading, IdAccX, IdAccY, IdAccZ, IdT1, IdT2, IdGpsAlt, IdA4, 0]

  /** `BatteryCellCount`, an `uint8`; the CELLS value divides by it. */
  type CellCount = x: int | 1 <= x < 256 witness 1

  datatype FlightState = Starting | Ready | Preflight | OtherFlightState
  datatype NavState = HoldingStation | ReturningHome | OtherNavState

  /** The flight state the SmartPort encoder reads, already converted to
      the integers its frames carry. */
  datatype SPortSnapshot = SPortSnapshot(
    haveGps: bool,             // F.HaveGPS
    gpsValid: bool,            // F.GPSValid
    originValid: bool,         // F.OriginValid
    baroActive: bool,          // F.BaroActive
    magnetometerActive: bool,  // F.MagnetometerActive
    rangefinderActive: bool,   // F.RangefinderActive
    bypass: bool,              // F.Bypass
    usingAngleControl: bool,   // F.UsingAngleControl
    armed: bool,               // Armed()
    flightState: FlightState,  // State
    navState: NavState,        // NavState
    speed: int,                // (GPS.gspeed * 36 + 18) / 100, km/h
    volts10: int,              // BatteryVolts * 10
    cellSum: uint16,           // (uint16)(BatteryVolts * 100 + BatteryCellCount)
    cellCount: CellCount,      // BatteryCellCount
    current100: int,           // BatteryCurrent * 100
    baroAltitude: int,         // BaroAltitude
    east: int32,               // GPS.Raw[EastC], 1e-7 degree
    north: int32,              // GPS.Raw[NorthC]
    roc100: int,               // ROC * 100
    heading10: int,            // RadiansToDegrees(A[Yaw].Angle) * 10
    accX100: int,              // Acc[X] * 100
    accY100: int,              // Acc[Y] * 100
    accZ100: int,              // Acc[Z] * 100
    noOfSats: byte,            // GPS.noofsats
    gpsAlt10: int,             // GPS.altitude * 10
    cellAverage: int)          // BatteryVolts * 10 / BatteryCellCount

  // ---------------------------------------------------------------------
  // Payloads

  /** The CELLS payload: 12 bits of per-cell voltage, then 4 bits of cell
      count, then 4 bits of cell index. Masking with 0xFFF and 0xF keeps
      the value modulo 4096 and 16; shifting left by 4 multiplies by 16. */
  function SPortCellPayload(cellVolts: int, count: int, cell: int): (p: int)
  {
    ((cellVolts % 0x1000) * 16 + count % 16) * 16 + cell % 16
  }

  /** Each field reads back from its place in the payload, and the payload
      fits 20 bits. */
  lemma SPortCellFields(cellVolts: int, count: int, cell: int)
    ensures var p := SPortCellPayload(cellVolts, count, cell);
      && 0 <= p < 0x10_0000
      && p / 256 == cellVolts % 0x1000
      && (p / 16) % 16 == count % 16
      && p % 16 == cell % 16
  {
    var v, c, k := cellVolts % 0x1000, count % 16, cell % 16;
    var p := SPortCellPayload(cellVolts, count, cell);
    assert p == 256 * v + 16 * c + k;
    assert p / 16 == 16 * v + c;
  }

  /** The CELLS value for cell `cell`: the rounded per-cell voltage in
      units of 0.02 V. */
  function CellsValue(cell: nat, s: SPortSnapshot): int
  {
    SPortCellPayload(s.cellSum / (s.cellCount * 2), s.cellCount, cell)
  }

  /** The static `currentCell` after a CELLS frame: incremented as an
      `uint8`, then reduced modulo the cell count. */
  function NextSPortCell(cell: nat, count: nat): (n: nat)
    requires 1 <= count
    ensures n < count
  {
    ((cell + 1) % 256) % count
  }

  /** From a cell in range, the index steps to the next cell and wraps
      after the last. */
  lemma NextSPortCellSteps(cell: nat, count: nat)
    requires cell < count < 256
    ensures NextSPortCell(cell, count) == if cell + 1 == count then 0 else cell + 1
  {
    DivModUnique(cell + 1, 256, 0, cell + 1);
    if cell + 1 == count {
      DivModUnique(cell + 1, count, 1, 0);
    } else {
      DivModUnique(cell + 1, count, 0, cell + 1);
    }
  }

  /** The cell index after `n` CELLS frames from a fresh start. */
  function SPortCellAfter(count: nat, n: nat): nat
    requires 1 <= count
  {
    if n == 0 then 0 else NextSPortCell(SPortCellAfter(count, n - 1), count)
  }

  /** The cell index visits 0, 1, ..., count - 1 and starts again. */
  lemma {:induction false} SPortCellCycle(count: nat, n: nat)
    requires 1 <= count < 256
    ensures SPortCellAfter(count, n) == n % count
  {
    if n > 0 {
      SPortCellCycle(count, n - 1);
      var p := (n - 1) % count;
      assert SPortCellAfter(count, n) == NextSPortCell(p, count);
      NextSPortCellSteps(p, count);
      ModStep(n - 1, count);
    }
  }

  /** Counting up by one steps the remainder, wrapping at the divisor. */
  lemma ModStep(m: nat, d: nat)
    requires 1 <= d
    ensures (m + 1) % d == if m % d + 1 == d then 0 else m % d + 1
  {
    var q, r := m / d, m % d;
    if r + 1 == d {
      DivModUnique(m + 1, d, q + 1, 0);
    } else {
      DivModUnique(m + 1, d, q, r + 1);
    }
  }

  /** The longitude word of a LATLONG frame: bit 31 set, bit 30 set when
      west, and below them |east| * 6 / 100, the magnitude in 1/10000
      minute. The magnitude stays below 2^30, so ORing in the two flag bits
      adds them. */
  function LonPayload(east: int32): (p: int)
    ensures 0x8000_0000 <= p < TwoTo32
    ensures (p / 0x4000_0000) % 2 == 1 <==> east < 0
    ensures 100 * (p % 0x4000_0000) <= 6 * Abs(east) < 100 * (p % 0x4000_0000) + 100
  {
    var a := Abs(east);
    var m := (a + a / 2) / 25;
    assert 2 * (a + a / 2) == 3 * a - a % 2;
    assert 50 * m <= 3 * a < 50 * m + 50;
    m + 0x8000_0000 + (if east < 0 then 0x4000_0000 else 0)
  }

  /** The latitude word: its magnitude variable is never loaded from the
      GPS, so the word is 0, or bit 30 alone when south. */
  function LatPayload(north: int): (p: int)
    ensures p == 0 || p == 0x4000_0000
    ensures p == 0x4000_0000 <==> north < 0
  {
    var tmp := 0;
    var m := (tmp + tmp / 2) / 25;
    m + (if north < 0 then 0x4000_0000 else 0)
  }

  /** The T1 status word: a leading 1, then one decimal digit per group of
      flags, each flag adding 1, 2 or 4 to its digit. */
  function T1Word(s: SPortSnapshot): int
  {
    10000 + 1000 * T1NavDigit(s) + 100 * T1SensorDigit(s) + 10 * T1ControlDigit(s) + T1FlightDigit(s)
  }

  /** The units digit of T1: flight state and arming. */
  function T1FlightDigit(s: SPortSnapshot): (d: int)
    ensures 0 <= d <= 6
  {
    (if s.flightState == Ready || s.flightState == Starting then 1
     else if s.flightState == Preflight then 2 else 0)
    + (if s.armed then 4 else 0)
  }

  /** The tens digit of T1: angle or rate control, and bypass. */
  function T1ControlDigit(s: SPortSnapshot): (d: int)
    ensures 1 <= d <= 6
  {
    (if s.usingAngleControl then 1 else 2) + (if s.bypass then 4 else 0)
  }

  /** The hundreds digit of T1: magnetometer, barometer, rangefinder. */
  function T1SensorDigit(s: SPortSnapshot): (d: int)
    ensures 0 <= d <= 7
  {
    (if s.magnetometerActive then 1 else 0) + (if s.baroActive then 2 else 0)
    + (if s.rangefinderActive then 4 else 0)
  }

  /** The thousands digit of T1: holding station or returning home. */
  function T1NavDigit(s: SPortSnapshot): (d: int)
    ensures 0 <= d <= 2
  {
    if s.navState == HoldingStation then 1 else if s.navState == ReturningHome then 2 else 0
  }

  /** T1 has five digits and fits a signed 16-bit display; each digit
      holds its flags as a sum of 1, 2 and 4. */
  lemma T1Digits(s: SPortSnapshot)
    ensures var w := T1Word(s);
      && 10000 <= w < 0x8000 && w / 10000 == 1
      && w % 10 == T1FlightDigit(s) && (w / 10) % 10 == T1ControlDigit(s)
      && (w / 100) % 10 == T1SensorDigit(s) && (w / 1000) % 10 == T1NavDigit(s)
  {
    var d0, d1, d2, d3 := T1FlightDigit(s), T1ControlDigit(s), T1SensorDigit(s), T1NavDigit(s);
    DecimalDigits(T1Word(s), d0, d1, d2, d3);
  }

  /** The digits of a five-digit decimal number starting with 1. */
  lemma DecimalDigits(w: int, d0: int, d1: int, d2: int, d3: int)
    requires 0 <= d0 <= 9 && 0 <= d1 <= 9 && 0 <= d2 <= 9 && 0 <= d3 <= 9
    requires w == 10000 + 1000 * d3 + 100 * d2 + 10 * d1 + d0
    ensures 10000 <= w < 20000 && w / 10000 == 1 && w % 10 == d0 && (w / 10) % 10 == d1
    ensures (w / 100) % 10 == d2 && (w / 1000) % 10 == d3
  {
    DivModUnique(w, 10000, 1, 1000 * d3 + 100 * d2 + 10 * d1 + d0);
    DivModUnique(w, 10, 1000 + 100 * d3 + 10 * d2 + d1, d0);
    DivModUnique(w / 10, 10, 100 + 10 * d3 + d2, d1);
    DivModUnique(w, 100, 100 + 10 * d3 + d2, 10 * d1 + d0);
    DivModUnique(w / 100, 10, 10 + d3, d2);
    DivModUnique(w, 1000, 10 + d3, 100 * d2 + 10 * d1 + d0);
    DivModUnique(w / 1000, 10, 1, d3);
  }

  /** The T2 word: GPS validity in the thousands, satellites below. */
  function T2Word(s: SPortSnapshot): int
  {
    (if s.gpsValid then 1000 else 0) + (if s.originValid then 2000 else 0) + s.noOfSats
  }

  lemma T2Digits(s: SPortSnapshot)
    ensures T2Word(s) % 1000 == s.noOfSats
    ensures T2Word(s) / 1000 == (if s.gpsValid then 1 else 0) + (if s.originValid then 2 else 0)
  {
  }

  // ---------------------------------------------------------------------
  // Answering a poll

  /** Whether the sender's `switch` clears the request for `id`: an id
      whose sensor is missing, or one the `switch` does not know, is passed
      over. */
  predicate Answers(id: int, s: SPortSnapshot)
  {
    if id == IdSpeed || id == IdLatLong || id == IdGpsAlt then s.haveGps && s.gpsValid
    else if id == IdAltitude || id == IdVario then s.baroActive
    else if id == IdT2 then s.haveGps
    else
      || id == IdVfas || id == IdCells || id == IdCurrent || id == IdFuel || id == IdHeading
      || id == IdAccX || id == IdAccY || id == IdAccZ || id == IdT1 || id == IdA4
  }

  /** The 32-bit value sent for `id`; `next` is the counter after its
      increment and `cell` the cell index. */
  function Value(id: int, next: nat, cell: nat, s: SPortSnapshot): int
    requires cell < 256
  {
    if id == IdSpeed then s.speed
    else if id == IdVfas then s.volts10
    else if id == IdCells then CellsValue(cell, s)
    else if id == IdCurrent then s.current100
    else if id == IdAltitude then s.baroAltitude
    else if id == IdLatLong then (if next % 2 == 1 then LonPayload(s.east) else LatPayload(s.north))
    else if id == IdVario then s.roc100
    else if id == IdHeading then s.heading10
    else if id == IdAccX then s.accX100
    else if id == IdAccY then s.accY100
    else if id == IdAccZ then s.accZ100
    else if id == IdT1 then T1Word(s)
    else if id == IdT2 then T2Word(s)
    else if id == IdGpsAlt then s.gpsAlt10
    else s.cellAverage
  }

  /** `FrSkySPortIdCnt`: a position in the table, or one past its end. */
  type IdCount = x: int | 0 <= x < 18

  datatype Outcome = Outcome(idCnt: nat, cell: nat, sent: seq<byte>)

  /** For each counter value, the most table entries the sender can pass
      over before it meets one that always answers. */
  const MaxSkips: seq<nat> := [1, 0, 0, 1, 0, 3, 2, 1, 0, 0, 0, 0, 0, 0, 2, 1, 0, 1]

  /** The entry the sender tries first: the counter's, or entry 0 when the
      counter has reached the terminator. */
  function NextSlot(idCnt: nat): (slot: nat)
    requires idCnt < 18
    ensures slot < 17 && IdTable[slot] != 0
    ensures slot == idCnt || (idCnt == 17 && slot == 0)
    ensures MaxSkips[slot] == MaxSkips[idCnt]
  {
    if IdTable[idCnt] == 0 then 0 else idCnt
  }

  /** An entry that does not answer is followed by another table entry,
      one step closer to an entry that always answers. */
  lemma SkipShortensSearch(slot: nat, s: SPortSnapshot)
    requires slot < 17
    ensures !Answers(IdTable[slot], s) ==>
      slot + 1 < 17 && IdTable[slot + 1] != 0 && MaxSkips[slot + 1] < MaxSkips[slot]
  {
  }

  /** The first answering entry from `slot` on. */
  function FirstAnswering(slot: nat, s: SPortSnapshot): (r: nat)
    requires slot < 17 && IdTable[slot] != 0
    ensures slot <= r < 17
    ensures Answers(IdTable[r], s)
    decreases MaxSkips[slot]
  {
    if Answers(IdTable[slot], s) then slot
    else
      SkipShortensSearch(slot, s);
      FirstAnswering(slot + 1, s)
  }

  /** The search passes over only entries that do not answer. */
  lemma {:induction false} FirstAnsweringIsFirst(slot: nat, s: SPortSnapshot)
    requires slot < 17 && IdTable[slot] != 0
    ensures forall k :: slot <= k < FirstAnswering(slot, s) ==> !Answers(IdTable[k], s)
    decreases MaxSkips[slot]
  {
    if !Answers(IdTable[slot], s) {
      SkipShortensSearch(slot, s);
      FirstAnsweringIsFirst(slot + 1, s);
    }
  }

  /** One poll: entries are tried from `NextSlot(idCnt)` on until one
      answers; the counter ends just past it, the cell index moves on after
      a CELLS frame, and every answer but FUEL's sends one frame. */
  function Service(idCnt: nat, cell: nat, s: SPortSnapshot): (o: Outcome)
    requires idCnt < 18 && cell < 256
    ensures NextSlot(idCnt) < o.idCnt < 18 && o.cell < 256
    ensures Answers(IdTable[o.idCnt - 1], s)
    ensures o.sent == Reply(IdTable[o.idCnt - 1], o.idCnt, cell, s)
    ensures o.cell == if IdTable[o.idCnt - 1] == IdCells then NextSPortCell(cell, s.cellCount) else cell
  {
    var slot := FirstAnswering(NextSlot(idCnt), s);
    var id := IdTable[slot];
    Outcome(slot + 1,
            if id == IdCells then NextSPortCell(cell, s.cellCount) else cell,
            Reply(id, slot + 1, cell, s))
  }

  /** What the `switch` writes for an entry that answers: FUEL writes
      nothing, every other entry its frame. */
  function Reply(id: int, next: nat, cell: nat, s: SPortSnapshot): (r: seq<byte>)
    requires cell < 256
    ensures r == [] <==> id == IdFuel
  {
    if id == IdFuel then [] else SPortFrame(id, Value(id, next, cell, s))
  }

  /** An entry that does not answer leaves the poll's outcome unchanged
      when the search starts just past it, and brings the sender closer to
      an entry that always answers. */
  lemma SkipKeepsService(start: nat, cell: nat, s: SPortSnapshot)
    requires start < 18 && cell < 256
    requires !Answers(IdTable[NextSlot(start)], s)
    ensures NextSlot(start) + 1 < 17
    ensures Service(NextSlot(start) + 1, cell, s) == Service(start, cell, s)
    ensures MaxSkips[NextSlot(start) + 1] < MaxSkips[start]
  {
    var slot := NextSlot(start);
    SkipShortensSearch(slot, s);
    assert NextSlot(slot + 1) == slot + 1;
    assert FirstAnswering(slot, s) == FirstAnswering(slot + 1, s);
    SameFirstSameService(slot + 1, start, cell, s);
  }

  /** A poll's outcome depends on the counter only through the entry the
      search stops at. */
  lemma SameFirstSameService(a: nat, b: nat, cell: nat, s: SPortSnapshot)
    requires a < 18 && b < 18 && cell < 256
    requires FirstAnswering(NextSlot(a), s) == FirstAnswering(NextSlot(b), s)
    ensures Service(a, cell, s) == Service(b, cell, s)
  {
  }

  /** An entry that answers is the one the poll stops at. */
  lemma AnswerEndsService(start: nat, cell: nat, s: SPortSnapshot)
    requires start < 18 && cell < 256
    requires Answers(IdTable[NextSlot(start)], s)
    ensures Service(start, cell, s).idCnt == NextSlot(start) + 1
  {
    assert FirstAnswering(NextSlot(start), s) == NextSlot(start);
  }

  /** Every answer but FUEL's is one frame that a receiver accepts,
      carrying the answering entry's id and the value sent for it. */
  lemma ReplyDecodes(id: uint16, next: nat, cell: nat, s: SPortSnapshot)
    requires cell < 256
    ensures id != IdFuel ==>
      DecodeFrame(Reply(id, next, cell, s)) == Some((id as int, Value(id, next, cell, s) % TwoTo32))
  {
    if id != IdFuel {
      FrameRoundTrip(id, Value(id, next, cell, s));
    }
  }

  /** With a GPS fix and a barometer every entry answers, so each poll
      moves one entry along the table, wrapping after the last. */
  lemma ServiceWithAllSensors(idCnt: nat, cell: nat, s: SPortSnapshot)
    requires idCnt < 18 && cell < 256
    requires s.haveGps && s.gpsValid && s.baroActive
    ensures Service(idCnt, cell, s).idCnt == NextSlot(idCnt) + 1
  {
    AllSensorsAnswer(NextSlot(idCnt), s);
    assert FirstAnswering(NextSlot(idCnt), s) == NextSlot(idCnt);
  }

  /** With a GPS fix and a barometer, every table entry answers. */
  lemma AllSensorsAnswer(slot: nat, s: SPortSnapshot)
    requires slot < 17 && s.haveGps && s.gpsValid && s.baroActive
    ensures Answers(IdTable[slot], s)
  {
  }

  /** The two LATLONG entries: the first sends the latitude word (the
      counter is then even), the second the longitude word. */
  lemma LatLongAlternation(cell: nat, s: SPortSnapshot)
    requires cell < 256 && s.haveGps && s.gpsValid
    ensures Service(5, cell, s) == Outcome(6, cell, SPortFrame(IdLatLong, LatPayload(s.north)))
    ensures Service(6, cell, s) == Outcome(7, cell, SPortFrame(IdLatLong, LonPayload(s.east)))
  {
    assert IdTable[5] == IdTable[6] == IdLatLong;
    assert FirstAnswering(NextSlot(5), s) == 5;
    assert FirstAnswering(NextSlot(6), s) == 6;
    assert Value(IdLatLong, 6, cell, s) == LatPayload(s.north);
    assert Value(IdLatLong, 7, cell, s) == LonPayload(s.east);
  }

  // ---------------------------------------------------------------------
  // The port state and the sender

  /** `FrSkySPortState`, in the order of its C enumeration. */
  datatype SPortState = Uninitialized | Initialized | Working | TimedOut

  /** The position of a state in its C enumeration. */
  function Ordinal(st: SPortState): nat
  {
    match st
    case Uninitialized => 0
    case Initialized => 1
    case Working => 2
    case TimedOut => 3
  }

  /** The SmartPort encoder's file-scope and static variables. */
  class SPortTelemetry {
    var state: SPortState         // FrSkySPortState
    var telemetryEnabled: bool    // FrSkySPortTelemetryEnabled
    var hasRequest: bool          // FrSkySPortHasRequest
    var idCnt: IdCount            // FrSkySPortIdCnt
    var lastRequestTime: uint32   // FrSkySPortLastRequestTime, milliseconds
    var lastChar: byte            // static lastChar of FrSkySPortDataReceive
    var currentCell: byte         // static currentCell of the CELLS case

    /** The variables as the C startup code zeroes them. */
    constructor ()
      ensures state == Uninitialized && !telemetryEnabled && !hasRequest
      ensures idCnt == 0 && lastRequestTime == 0 && lastChar == 0 && currentCell == 0
    {
      state := Uninitialized;
      telemetryEnabled := false;
      hasRequest := false;
      idCnt := 0;
      lastRequestTime := 0;
      lastChar := 0;
      currentCell := 0;
    }

    /** `FrSkySPortDataReceive`, for one received character `c`; `now` is
        the millisecond clock and `inputPending` whether more input is
        waiting. Any byte after a 0x7E marks the link as working; a poll
        of sensor 0x1B with no further input waiting opens a request. */
    method FrSkySPortDataReceive(c: uint16, now: uint32, inputPending: bool)
      modifies this`state, this`hasRequest, this`lastRequestTime, this`lastChar
      ensures state == if old(lastChar) == StartStop then Working else old(state)
      ensures var polled := old(lastChar) == StartStop && c == SensorId1 && !inputPending;
        && hasRequest == (polled || old(hasRequest))
        && lastRequestTime == if polled then now else old(lastRequestTime)
      ensures lastChar == c % 256
    {
      if lastChar == StartStop {
        state := Working;
        if c == SensorId1 && !inputPending {
          lastRequestTime := now;
          hasRequest := true;
        }
      }
      lastChar := c % 256;
    }

    /** `canSendSPortPortTelemetry`: FrSky telemetry is selected and the
        link is initialised or working. */
    function CanSendSPortPortTelemetry(isFrSkyTelemetry: bool): (r: bool)
      reads this
      ensures r <==> isFrSkyTelemetry && 1 <= Ordinal(state) <= 2
    {
      isFrSkyTelemetry && (state == Initialized || state == Working)
    }

    /** `isSPortPortTimedOut`: the state has reached the timed-out value. */
    function IsSPortPortTimedOut(): (r: bool)
      reads this
      ensures r <==> state == TimedOut
    {
      Ordinal(state) >= Ordinal(TimedOut)
    }

    /** `configureSPortPortTelemetryPort`: with FrSky telemetry selected the
        link starts initialised and enabled, its request clock at `now`. */
    method ConfigureSPortPortTelemetryPort(isFrSkyTelemetry: bool, now: uint32)
      modifies this`state, this`telemetryEnabled, this`lastRequestTime
      ensures isFrSkyTelemetry ==> state == Initialized && telemetryEnabled && lastRequestTime == now
      ensures isFrSkyTelemetry ==> CanSendSPortPortTelemetry(true) && !IsSPortPortTimedOut()
      ensures !isFrSkyTelemetry ==> unchanged(this)
    {
      if isFrSkyTelemetry {
        state := Initialized;
        telemetryEnabled := true;
        lastRequestTime := now;
      }
    }

    /** `checkSPortPortTelemetryState`: telemetry is always wanted, so the
        port is configured on a call that finds it disabled, and the result
        says whether anything was done. */
    method CheckSPortPortTelemetryState(isFrSkyTelemetry: bool, now: uint32) returns (changed: bool)
      modifies this`state, this`telemetryEnabled, this`lastRequestTime
      ensures changed == !old(telemetryEnabled)
      ensures changed && isFrSkyTelemetry ==> telemetryEnabled && state == Initialized && lastRequestTime == now
      ensures !(changed && isFrSkyTelemetry) ==> unchanged(this)
    {
      var wanted := true;
      if wanted == telemetryEnabled {
        return false;
      }
      if wanted {
        ConfigureSPortPortTelemetryPort(isFrSkyTelemetry, now);
      }
      return true;
    }

    /** The SmartPort `SendFrSkyTelemetry`: the request flag is forced on,
        then table entries are tried, each advancing the counter, until one
        answers. */
    method SendFrSkyTelemetry(port: TxPort, s: SPortSnapshot)
      modifies this`hasRequest, this`idCnt, this`currentCell, port
      ensures !hasRequest
      ensures var o := Service(old(idCnt), old(currentCell), s);
        idCnt == o.idCnt && currentCell == o.cell && port.sent == old(port.sent) + o.sent
    {
      hasRequest := true;
      while hasRequest
        invariant hasRequest ==>
          && Service(idCnt, currentCell, s) == Service(old(idCnt), old(currentCell), s)
          && port.sent == old(port.sent)
        invariant !hasRequest ==> var o := Service(old(idCnt), old(currentCell), s);
          idCnt == o.idCnt && currentCell == o.cell && port.sent == old(port.sent) + o.sent
        decreases if hasRequest then MaxSkips[idCnt] + 1 else 0
      {
        TryNextEntry(port, s);
      }
    }

    /** One pass of the sender's loop: the counter's entry, or entry 0 once
        the counter has reached the terminator, is tried with the counter
        already moved past it. An answer completes the poll; a silent entry
        leaves the poll's outcome as it was, one entry closer to an
        entry that always answers. */
    method TryNextEntry(port: TxPort, s: SPortSnapshot)
      requires hasRequest
      modifies this`hasRequest, this`idCnt, this`currentCell, port
      ensures hasRequest ==>
        && Service(idCnt, currentCell, s) == Service(old(idCnt), old(currentCell), s)
        && MaxSkips[idCnt] < MaxSkips[old(idCnt)]
        && port.sent == old(port.sent)
      ensures !hasRequest ==> var o := Service(old(idCnt), old(currentCell), s);
        idCnt == o.idCnt && currentCell == o.cell && port.sent == old(port.sent) + o.sent
    {
      ghost var start := idCnt;
      var id := IdTable[idCnt];
      if id == 0 {
        idCnt := 0;
        id := IdTable[idCnt];
      }
      ghost var slot := idCnt;
      assert slot == NextSlot(start) && id == IdTable[slot];
      idCnt := idCnt + 1;
      AnswerRequest(port, id, s);
      if hasRequest {
        SkipKeepsService(start, currentCell, s);
      } else {
        AnswerEndsService(start, old(currentCell), s);
      }
    }

    /** The `switch` of the sender for one table entry `id`, with the
        counter already advanced: an entry whose sensor is present sends
        its frame (FUEL sends nothing) and clears the request. */
    method AnswerRequest(port: TxPort, id: uint16, s: SPortSnapshot)
      modifies this`hasRequest, this`currentCell, port
      ensures hasRequest == (old(hasRequest) && !Answers(id, s))
      ensures currentCell == if Answers(id, s) && id == IdCells
        then NextSPortCell(old(currentCell), s.cellCount) else old(currentCell)
      ensures port.sent == old(port.sent) +
        if Answers(id, s) then Reply(id, idCnt, old(currentCell), s) else []
    {
      if id == IdSpeed {
        if s.haveGps && s.gpsValid {
          TxFrSkySPort(port, id, s.speed);
          hasRequest := false;
        }
      } else if id == IdVfas {
        TxFrSkySPort(port, id, s.volts10);
        hasRequest := false;
      } else if id == IdCells {
        SendCells(port, s);
        hasRequest := false;
      } else if id == IdCurrent {
        TxFrSkySPort(port, id, s.current100);
        hasRequest := false;
      } else {
        AnswerFlight(port, id, s);
      }
    }

    /** The CELLS case: the payload for the current cell, then the static
        cell index moves on as an `uint8` modulo the cell count. */
    method SendCells(port: TxPort, s: SPortSnapshot)
      modifies this`currentCell, port
      ensures currentCell == NextSPortCell(old(currentCell), s.cellCount)
      ensures port.sent == old(port.sent) + SPortFrame(IdCells, CellsValue(old(currentCell), s))
    {
      var payload := SPortCellPayload(s.cellSum / (s.cellCount * 2), s.cellCount, currentCell);
      TxFrSkySPort(port, IdCells, payload);
      currentCell := (currentCell + 1) % 256;
      currentCell := currentCell % s.cellCount;
    }

    /** The ALTITUDE, FUEL, LATLONG and VARIO cases of the `switch`; FUEL
        only clears the request. */
    method AnswerFlight(port: TxPort, id: uint16, s: SPortSnapshot)
      requires id != IdSpeed && id != IdVfas && id != IdCells && id != IdCurrent
      modifies this`hasRequest, port
      ensures Answers(id, s) ==> !hasRequest
      ensures Answers(id, s) && id != IdFuel ==>
        port.sent == old(port.sent) + SPortFrame(id, Value(id, idCnt, currentCell, s))
      ensures !Answers(id, s) || id == IdFuel ==> port.sent == old(port.sent)
      ensures !Answers(id, s) ==> hasRequest == old(hasRequest)
    {
      if id == IdAltitude {
        if s.baroActive {
          TxFrSkySPort(port, id, s.baroAltitude);
          hasRequest := false;
        }
      } else if id == IdFuel {
        hasRequest := false;
      } else if id == IdLatLong {
        if s.haveGps && s.gpsValid {
          var payload := if idCnt % 2 == 1 then LonPayload(s.east) else LatPayload(s.north);
          TxFrSkySPort(port, id, payload);
          hasRequest := false;
        }
      } else if id == IdVario {
        if s.baroActive {
          TxFrSkySPort(port, id, s.roc100);
          hasRequest := false;
        }
      } else {
        AnswerAttitude(port, id, s);
      }
    }

    /** The HEADING and accelerometer cases of the `switch`, each always
        answered. */
    method AnswerAttitude(port: TxPort, id: uint16, s: SPortSnapshot)
      requires id != IdSpeed && id != IdVfas && id != IdCells && id != IdCurrent
      requires id != IdAltitude && id != IdFuel && id != IdLatLong && id != IdVario
      modifies this`hasRequest, port
      ensures Answers(id, s) ==>
        !hasRequest && port.sent == old(port.sent) + SPortFrame(id, Value(id, idCnt, currentCell, s))
      ensures !Answers(id, s) ==> hasRequest == old(hasRequest) && port.sent == old(port.sent)
    {
      if id == IdHeading {
        TxFrSkySPort(port, id, s.heading10);
        hasRequest := false;
      } else if id == IdAccX {
        TxFrSkySPort(port, id, s.accX100);
        hasRequest := false;
      } else if id == IdAccY {
        TxFrSkySPort(port, id, s.accY100);
        hasRequest := false;
      } else if id == IdAccZ {
        TxFrSkySPort(port, id, s.accZ100);
        hasRequest := false;
      } else {
        AnswerStatus(port, id, s);
      }
    }

    /** The T1, T2, GPS_ALT and A4 cases of the `switch`; an id the
        `switch` does not list sends nothing and keeps the request. */
    method AnswerStatus(port: TxPort, id: uint16, s: SPortSnapshot)
      requires id != IdSpeed && id != IdVfas && id != IdCells && id != IdCurrent
      requires id != IdAltitude && id != IdFuel && id != IdLatLong && id != IdVario
      requires id != IdHeading && id != IdAccX && id != IdAccY && id != IdAccZ
      modifies this`hasRequest, port
      ensures Answers(id, s) ==>
        !hasRequest && port.sent == old(port.sent) + SPortFrame(id, Value(id, idCnt, currentCell, s))
      ensures !Answers(id, s) ==> hasRequest == old(hasRequest) && port.sent == old(port.sent)
    {
      if id == IdT1 {
        var flags := T1Flags(s);
        TxFrSkySPort(port, id, flags);
        hasRequest := false;
      } else if id == IdT2 {
        if s.haveGps {
          TxFrSkySPort(port, id, T2Word(s));
          hasRequest := false;
        }
      } else if id == IdGpsAlt {
        if s.haveGps && s.gpsValid {
          TxFrSkySPort(port, id, s.gpsAlt10);
          hasRequest := false;
        }
      } else if id == IdA4 {
        TxFrSkySPort(port, id, s.cellAverage);
        hasRequest := false;
      }
    }
  }

  /** The T1 case's flag accumulation, one flag at a time. */
  method T1Flags(s: SPortSnapshot) returns (tmpi: int)
    ensures tmpi == T1Word(s)
  {
    tmpi := 10000;
    if s.flightState == Ready || s.flightState == Starting { tmpi := tmpi + 1; }
    if s.flightState == Preflight { tmpi := tmpi + 2; }
    if s.armed { tmpi := tmpi + 4; }
    assert tmpi == 10000 + T1FlightDigit(s);
    if s.usingAngleControl { tmpi := tmpi + 10; }
    if !s.usingAngleControl { tmpi := tmpi + 20; }
    if s.bypass { tmpi := tmpi + 40; }
    assert tmpi == 10000 + 10 * T1ControlDigit(s) + T1FlightDigit(s);
    if s.magnetometerActive { tmpi := tmpi + 100; }
    if s.baroActive { tmpi := tmpi + 200; }
    if s.rangefinderActive { tmpi := tmpi + 400; }
    assert tmpi == 10000 + 100 * T1SensorDigit(s) + 10 * T1ControlDigit(s) + T1FlightDigit(s);
    if s.navState == HoldingStation { tmpi := tmpi + 1000; }
    if s.navState == ReturningHome { tmpi := tmpi + 2000; }
  }
}

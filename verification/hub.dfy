/** The FrSky Hub telemetry encoder, the variant the firmware builds.

    A packet is the sentinel 0x5E followed by a data id and a 16-bit value,
    low byte first; the id and value bytes are stuffed so that 0x5E never
    appears inside a packet. A scheduler called at a fixed rate spreads the
    data ids over a cycle of 40 calls: a fast frame most of the time, a
    medium (GPS) frame every fifth call and a slow frame on the fortieth. */
module FrSkyHub {
  import opened FrSkyBytes

  const Sentinel: byte := 0x5E
  const StuffMarker: byte := 0x5D

  // Data ids sent by the scheduler (BP = before, AP = after the decimal point).
  const IdGpsAltBp: byte := 0x01
  const IdTemp1: byte := 0x02
  const IdVolts: byte := 0x06
  const IdGpsAltAp: byte := 0x09
  const IdBaroAltBp: byte := 0x10
  const IdGpsSpeedBp: byte := 0x11
  const IdGpsLongBp: byte := 0x12
  const IdGpsLatBp: byte := 0x13
  const IdGpsCoursBp: byte := 0x14
  const IdGpsHourMin: byte := 0x17
  const IdGpsSec: byte := 0x18
  const IdGpsSpeedAp: byte := 0x19
  const IdGpsLongAp: byte := 0x1A
  const IdGpsLatAp: byte := 0x1B
  const IdGpsCoursAp: byte := 0x1C
  const IdGpsStat: byte := 0x1D
  const IdBaroAltAp: byte := 0x21
  const IdGpsLongEW: byte := 0x22
  const IdGpsLatNS: byte := 0x23
  const IdCurrent: byte := 0x28
  const IdWhereDist: byte := 0x29
  const IdWhereBear: byte := 0x2A
  const IdWhereElev: byte := 0x2B
  const IdWhereHint: byte := 0x2C
  const IdVario: byte := 0x30
  const IdGyroX: byte := 0x31
  const IdPitch: byte := 0x34
  const IdMilliAmpHours: byte := 0x36
  const IdVoltsBp: byte := 0x3A
  const IdVoltsAp: byte := 0x3B

  // ---------------------------------------------------------------------
  // Byte stuffing

  /** The bytes `TxFrSky` writes for one data byte: the sentinel and the
      stuffing marker are replaced by the marker and the byte XOR 0x60. */
  function Stuff(b: byte): (r: seq<byte>)
    ensures Sentinel !in r
    ensures |r| == if b == Sentinel || b == StuffMarker then 2 else 1
    ensures |r| == 1 ==> r == [b]
    ensures |r| == 2 ==> r[0] == StuffMarker && Xor60(r[1]) == b
  {
    if b == 0x5E then [0x5D, 0x3E]
    else if b == 0x5D then [0x5D, 0x3D]
    else [b]
  }

  /** The receiver's recovery rule for the byte after a stuffing marker. */
  function Xor60(b: byte): byte
  {
    ((b as bv8) ^ 0x60) as int
  }

  /** Stuffs every byte of a run, in order. */
  function StuffAll(bs: seq<byte>): (r: seq<byte>)
    ensures Sentinel !in r
    ensures |bs| <= |r| <= 2 * |bs|
  {
    if bs == [] then [] else Stuff(bs[0]) + StuffAll(bs[1..])
  }

  /** Undoes stuffing; `None` when the run holds a raw sentinel or ends
      with a lone marker. */
  function Unstuff(s: seq<byte>): (r: Option<seq<byte>>)
    decreases |s|
  {
    if s == [] then Some([])
    else if s[0] == Sentinel then None
    else if s[0] == StuffMarker then
      if |s| < 2 then None
      else match Unstuff(s[2..]) {
        case None => None
        case Some(rest) => Some([Xor60(s[1])] + rest)
      }
    else match Unstuff(s[1..]) {
      case None => None
      case Some(rest) => Some([s[0]] + rest)
    }
  }

  /** Stuffing one byte is undone by the receiver for all 256 values. */
  lemma StuffByteRoundTrip(b: byte)
    ensures Unstuff(Stuff(b)) == Some([b])
  {
    StuffAllRoundTrip([b]);
    assert StuffAll([b]) == Stuff(b) + StuffAll([]);
  }

  /** Stuffing a run of bytes is undone by the receiver. */
  lemma {:induction false} StuffAllRoundTrip(bs: seq<byte>)
    ensures Unstuff(StuffAll(bs)) == Some(bs)
  {
    if bs != [] {
      StuffAllRoundTrip(bs[1..]);
      var head, tail := Stuff(bs[0]), StuffAll(bs[1..]);
      assert StuffAll(bs) == head + tail;
      if |head| == 2 {
        assert (head + tail)[2..] == tail;
      } else {
        assert (head + tail)[1..] == tail;
      }
      assert [bs[0]] + bs[1..] == bs;
    }
  }

  // ---------------------------------------------------------------------
  // Packets

  /** `TxFrSky16`: the low byte, then `(a >> 8) & 0xFF`, each stuffed. */
  function Stuff16(a: int): (r: seq<byte>)
    ensures Sentinel !in r
    ensures 2 <= |r| <= 4
  {
    Stuff(a % 256) + Stuff((a / 256) % 256)
  }

  /** `TxFrSkyPacket`: an unstuffed sentinel, then the stuffed id and the
      stuffed 16-bit value. `v` may be any integer: its low 16 bits are what
      the conversion to the `int16` parameter keeps. */
  function Packet(id: byte, v: int): (r: seq<byte>)
    ensures 4 <= |r| <= 7
    ensures r[0] == Sentinel && Sentinel !in r[1..]
  {
    var r := [Sentinel] + Stuff(id) + Stuff16(v);
    assert r[1..] == Stuff(id) + Stuff16(v);
    r
  }

  /** After its sentinel a packet is the stuffed run of id, low byte and
      high byte. */
  lemma PacketIsStuffedRun(id: byte, v: int)
    ensures Packet(id, v) == [Sentinel] + StuffAll([id] + LE16(v))
  {
    var b := LE16(v);
    assert ([id] + b)[1..] == b;
    assert b[1..][1..] == [];
    assert StuffAll(b[1..]) == Stuff(b[1]) + StuffAll([]);
    assert StuffAll(b) == Stuff(b[0]) + StuffAll(b[1..]);
  }

  /** What a receiver reads out of one packet: the id and the 16-bit value. */
  function DecodePacket(p: seq<byte>): (r: Option<(byte, int)>)
    ensures r.Some? ==> 0 <= r.value.1 < TwoTo16
  {
    if |p| == 0 || p[0] != Sentinel then None
    else match Unstuff(p[1..]) {
      case Some(b) => if |b| == 3 then Some((b[0], FromLE16(b[1..]))) else None
      case None => None
    }
  }

  /** A packet gives back its id and the low 16 bits of its value. */
  lemma PacketRoundTrip(id: byte, v: int)
    ensures DecodePacket(Packet(id, v)) == Some((id, v % TwoTo16))
  {
    var p := Packet(id, v);
    PacketIsStuffedRun(id, v);
    StuffAllRoundTrip([id] + LE16(v));
    assert p[1..] == StuffAll([id] + LE16(v));
    assert ([id] + LE16(v))[1..] == LE16(v);
  }

  /** The `int32` cast of a `float`: truncation toward zero. */
  function Trunc(x: real): (t: int)
    ensures Abs(t) as real <= (if x < 0.0 then -x else x) < Abs(t) as real + 1.0
    ensures x >= 0.0 ==> t >= 0
    ensures x < 0.0 ==> t <= 0
  {
    if x >= 0.0 then x.Floor else -((-x).Floor)
  }

  /** `MakeFrac` on exact reals: the absolute value of `v * s`, truncated
      toward zero as the `int32` cast does, modulo `s`. */
  function MakeFrac(v: real, s: nat): (r: int)
    requires s > 0
    ensures 0 <= r < s
  {
    Abs(Trunc(v * s as real)) % s
  }

  /** The fraction digits come out non-negative whatever the sign of `v`. */
  lemma MakeFracExamples()
    ensures MakeFrac(12.34, 100) == 34
    ensures MakeFrac(-5.6, 10) == 6
  {
    assert 12.34 * 100 as real == 1234.0;
    assert (1234.0).Floor == 1234;
    assert -5.6 * 10 as real == -56.0;
    assert (56.0).Floor == 56;
  }

  /** `TxFrSkyPacketPair` hands `MakeFrac` a value already truncated to an
      integer, so the after-decimal-point packet always carries 0. */
  lemma MakeFracOfInteger(v: int, s: nat)
    requires s > 0
    ensures MakeFrac(v as real, s) == 0
  {
    calc {
      MakeFrac(v as real, s);
      Abs(Trunc(v as real * s as real)) % s;
      { IntegerProduct(v, s); }
      (Abs(v) * s) % s;
      { DivModUnique(Abs(v) * s, s, Abs(v), 0); }
      0;
    }
  }

  /** The product of integers taken as reals is exact, truncation leaves it
      as it is, and its magnitude is the magnitude of `v` times `s`. */
  lemma IntegerProduct(v: int, s: nat)
    ensures v as real * s as real == (v * s) as real
    ensures Trunc((v * s) as real) == v * s
    ensures Abs(v * s) == Abs(v) * s
  {
    if v < 0 {
      assert v * s == -(Abs(v) * s);
    }
  }

  /** `TxFrSkyPacketPair`: the value packet, then the fraction packet. */
  function PacketPair(id1: byte, id2: byte, v: int, frac: nat): (r: seq<byte>)
    requires frac > 0
    ensures r == Packet(id1, v) + Packet(id2, 0)
  {
    MakeFracOfInteger(v, frac);
    Packet(id1, v) + Packet(id2, MakeFrac(v as real, frac))
  }

  // ---------------------------------------------------------------------
  // GPS coordinates

  datatype DegMin = DegMin(bp: int, ap: int)

  /** `GPStoDDDMM_MMMM`: a coordinate in 1e-7 degree units becomes degrees
      times 100 plus whole minutes (`bp`) and the minute fraction to four
      digits, truncated (`ap`). The sign is dropped. `Abs` of the most
      negative 32-bit value overflows in C, so that value is excluded. */
  function GPStoDDDMM(l: int): (c: DegMin)
    requires Int32Min < l < Int32Limit
    ensures c.bp / 100 == Abs(l) / 10000000
    ensures c.bp % 100 < 60 && 0 <= c.ap < 10000
    ensures 0 <= c.bp < TwoTo16
    ensures (c.bp % 100) * 10000 + c.ap == ((Abs(l) % 10000000) * 60) / 1000
  {
    var a := Abs(l);
    var d := a / 10000000;
    var dm := (a % 10000000) * 60;
    var m := dm / 10000000;
    var mf := dm - m * 10000000;
    assert d <= 214;
    assert dm / 1000 == m * 10000 + mf / 1000;
    DegMin(d * 100 + m, mf / 1000)
  }

  /** Only the magnitude of the coordinate matters. */
  lemma GPStoDDDMMIgnoresSign(l: int)
    requires Int32Min < l < Int32Limit
    ensures GPStoDDDMM(l) == GPStoDDDMM(-l)
  {
  }

  /** 47.385123 degrees is 47 degrees 23.1073 minutes. */
  lemma GPStoDDDMMExample()
    ensures GPStoDDDMM(473851230) == DegMin(4723, 1073)
    ensures GPStoDDDMM(-473851230) == DegMin(4723, 1073)
  {
  }

  /** `TxFrSkyGPSCoords`: latitude then longitude, each as degrees-minutes,
      minute fraction and hemisphere letter. */
  function CoordPackets(lat: int, lon: int): (r: seq<byte>)
    requires Int32Min < lat < Int32Limit && Int32Min < lon < Int32Limit
  {
    var la := GPStoDDDMM(lat);
    var lo := GPStoDDDMM(lon);
    Packet(IdGpsLatBp, la.bp) + Packet(IdGpsLatAp, la.ap)
    + Packet(IdGpsLatNS, if lat < 0 then 'S' as int else 'N' as int)
    + Packet(IdGpsLongBp, lo.bp) + Packet(IdGpsLongAp, lo.ap)
    + Packet(IdGpsLongEW, if lon < 0 then 'W' as int else 'E' as int)
  }

  /** The sign of a coordinate reaches the wire only through its
      hemisphere packet: mirroring both coordinates changes nothing else. */
  lemma CoordSignOnlyInHemisphere(lat: int, lon: int)
    requires Int32Min < lat < Int32Limit && Int32Min < lon < Int32Limit
    ensures CoordPackets(lat, lon)
            == Packet(IdGpsLatBp, GPStoDDDMM(-lat).bp) + Packet(IdGpsLatAp, GPStoDDDMM(-lat).ap)
               + Packet(IdGpsLatNS, if lat < 0 then 'S' as int else 'N' as int)
               + Packet(IdGpsLongBp, GPStoDDDMM(-lon).bp) + Packet(IdGpsLongAp, GPStoDDDMM(-lon).ap)
               + Packet(IdGpsLongEW, if lon < 0 then 'W' as int else 'E' as int)
  {
    GPStoDDDMMIgnoresSign(lat);
    GPStoDDDMMIgnoresSign(lon);
  }

  /** `TxFrSkyGPSStat`: satellites, fix type and the two validity flags as
      decimal digits. */
  function GPSStatWord(sats: nat, fix: nat, gpsValid: bool, originValid: bool): (w: int)
    ensures w >= 0
  {
    sats * 1000 + fix * 100 + (if gpsValid then 10 else 0) + (if originValid then 1 else 0)
  }

  /** The status word reads back digit by digit from its 16 wire bits while
      it fits them. */
  lemma GPSStatDigits(sats: nat, fix: nat, gpsValid: bool, originValid: bool)
    requires sats < 65 && fix < 10
    ensures var w := GPSStatWord(sats, fix, gpsValid, originValid) % TwoTo16;
      && w / 1000 == sats && (w / 100) % 10 == fix
      && ((w / 10) % 10 == 1 <==> gpsValid) && (w % 10 == 1 <==> originValid)
  {
    var w := GPSStatWord(sats, fix, gpsValid, originValid);
    var g, o := (if gpsValid then 1 else 0), (if originValid then 1 else 0);
    assert w == 1000 * sats + 100 * fix + 10 * g + o;
    DivModUnique(w, TwoTo16, 0, w);
    DivModUnique(w, 1000, sats, 100 * fix + 10 * g + o);
    DivModUnique(w, 100, 10 * sats + fix, 10 * g + o);
    DivModUnique(w / 100, 10, sats, fix);
    DivModUnique(w, 10, 100 * sats + 10 * fix + g, o);
    DivModUnique(w / 10, 10, 10 * sats + fix, g);
  }

  // ---------------------------------------------------------------------
  // Cell voltages

  /** The 16-bit payload of `TxFrSkyCellVoltages`: the low byte of the
      voltage in the high byte, the cell index shifted left by 4 and bits
      8..11 of the voltage in the low nibble, ORed in 32 bits and cut to
      the 16 bits of `payload`. An index of 16 or more spills into the
      voltage byte, as it does in the source. */
  function HubCellPayload(cellVoltage: bv32, cell: bv16): (p: bv16)
  {
    var p32 := ((cellVoltage & 0xFF) << 8) | ((cell as bv32) << 4) | ((cellVoltage & 0xF00) >> 8);
    (p32 & 0xFFFF) as bv16
  }

  /** For an index below 16 the three fields read back unchanged. */
  lemma HubCellFields(cellVoltage: bv32, cell: bv16)
    requires cell < 16
    ensures (HubCellPayload(cellVoltage, cell) >> 8) as bv32 == cellVoltage & 0xFF
    ensures (HubCellPayload(cellVoltage, cell) >> 4) & 0xF == cell
    ensures (HubCellPayload(cellVoltage, cell) & 0xF) as bv32 == (cellVoltage >> 8) & 0xF
  {
  }

  /** The rotation after `++currentCell >= BatteryCellCount` (a 16-bit
      counter): back to 0 once the count is reached. */
  function NextHubCell(cell: nat, count: nat): (n: nat)
    requires cell < TwoTo16
    ensures n == 0 || n == cell + 1
    ensures count >= 1 ==> n < count
  {
    if (cell + 1) % TwoTo16 >= count then 0 else (cell + 1) % TwoTo16
  }

  /** The index after `n` successive calls with the same cell count. */
  function HubCellAfter(cell: nat, count: nat, n: nat): nat
    requires cell < TwoTo16
    decreases n
  {
    if n == 0 then cell else HubCellAfter(NextHubCell(cell, count), count, n - 1)
  }

  /** From index `c`, successive calls send `c, c+1, ..., count-1` and then
      come back to 0. */
  lemma {:induction false} HubCellCycle(c: nat, count: nat, n: nat)
    requires c < count < 256 && c + n <= count
    decreases n
    ensures forall i :: 0 <= i < n ==> HubCellAfter(c, count, i) == c + i
    ensures HubCellAfter(c, count, n) == if c + n == count then 0 else c + n
  {
    if n > 0 {
      if c + 1 == count {
        assert n == 1;
        assert HubCellAfter(c, count, 1) == HubCellAfter(0, count, 0);
      } else {
        HubCellCycle(c + 1, count, n - 1);
        forall i | 0 <= i < n ensures HubCellAfter(c, count, i) == c + i {
          if i > 0 {
            assert HubCellAfter(c, count, i) == HubCellAfter(c + 1, count, i - 1);
          }
        }
      }
    }
  }

  // ---------------------------------------------------------------------
  // Other packets of the frames

  /** `TxFrSkyTime`: whole minutes (0..59) and seconds of the millisecond
      clock, read as a 32-bit counter. */
  function ClockFields(clockMs: nat): (ms: (int, int))
    ensures 0 <= ms.0 < 60 && 0 <= ms.1 < 60
    ensures ms.0 * 60 + ms.1 == ((clockMs % TwoTo32) / 1000) % 3600
  {
    var seconds := (clockMs % TwoTo32) / 1000;
    ((seconds / 60) % 60, seconds % 60)
  }

  function TimePackets(clockMs: nat): seq<byte>
  {
    var (minutes, seconds) := ClockFields(clockMs);
    Packet(IdGpsHourMin, minutes * 256) + Packet(IdGpsSec, seconds)
  }

  /** `TxFrSkyGyro` and `TxFrSkyAttitude`: one packet per axis, the ids
      counting up from `firstId`. */
  function AxisPackets(firstId: byte, vs: seq<int>): seq<byte>
    requires firstId + |vs| <= 256
  {
    if vs == [] then []
    else AxisPackets(firstId, vs[..|vs| - 1]) + Packet(firstId + |vs| - 1, vs[|vs| - 1])
  }

  /** One more axis adds its packet at the end. */
  lemma AxisPacketsSnoc(firstId: byte, vs: seq<int>, a: nat)
    requires a < |vs| && firstId + |vs| <= 256
    ensures AxisPackets(firstId, vs[..a + 1]) == AxisPackets(firstId, vs[..a]) + Packet(firstId + a, vs[a])
  {
    assert vs[..a + 1][..a] == vs[..a];
  }

  /** The flight state the Hub encoder reads, already converted to the
      integers its packets carry. */
  datatype HubSnapshot = HubSnapshot(
    clockMs: nat,            // mSClock()
    baroTemperature: int,    // BaroTemperature
    gpsValid: bool,          // F.GPSValid
    originValid: bool,       // F.OriginValid
    navInRange: bool,        // 0 <= Nav.Distance < 32000
    navDistance: int,
    navBearing: int,         // degrees
    navElevation: int,
    navHint: int,
    gpsSpeed: int,           // GPS.gspeed * 3.6
    gpsAltitude: int,
    gpsHeading: int,         // degrees
    latitude: int,           // GPS.C[NorthC].Raw, 1e-7 degree
    longitude: int,          // GPS.C[EastC].Raw
    noOfSats: nat,
    fix: nat,
    baroAltitude: int,       // BaroAltitude - OriginAltitude
    vario: int,              // ROC * 100
    voltsHalf: int,          // BatteryVolts * 0.5
    cellVoltage: bv32,       // BatteryVolts * 500 / BatteryCellCount
    cellCount: nat,          // BatteryCellCount
    current: int,            // BatteryCurrent * 10
    chargeUsed: int,         // BatteryChargeUsedmAH
    rates: seq<int>,         // pitch, roll, yaw rates in degrees per second
    angles: seq<int>)        // pitch, roll in degrees
  {
    predicate Valid()
    {
      && Int32Min < latitude < Int32Limit && Int32Min < longitude < Int32Limit
      && cellCount < 256 && |rates| == 3 && |angles| == 2
      && (navInRange ==> 0 <= navDistance < 32000)
    }
  }

  function WherePackets(s: HubSnapshot): seq<byte>
  {
    if s.navInRange then
      Packet(IdWhereDist, s.navDistance) + Packet(IdWhereBear, s.navBearing)
      + Packet(IdWhereElev, s.navElevation) + Packet(IdWhereHint, s.navHint)
    else []
  }

  // ---------------------------------------------------------------------
  // Frame scheduler

  datatype FrameKind = Fast | Medium | Slow

  /** The frame chosen by a call that finds `FrameCount == count`. */
  function KindOf(count: nat): FrameKind
  {
    if count + 1 == 40 then Slow else if (count + 1) % 5 == 0 then Medium else Fast
  }

  /** `FrameCount` after that call. */
  function NextFrameCount(count: nat): (n: nat)
    ensures count < 40 ==> n < 40
    ensures n == 0 <==> count + 1 == 40
  {
    if count + 1 == 40 then 0 else count + 1
  }

  function SlowFrame(s: HubSnapshot): seq<byte>
  {
    TimePackets(s.clockMs) + Packet(IdTemp1, s.baroTemperature) + [Sentinel]
  }

  function MediumFrame(s: HubSnapshot): seq<byte>
    requires s.Valid()
  {
    (if s.gpsValid then
       (if s.originValid then WherePackets(s) else [])
       + PacketPair(IdGpsSpeedBp, IdGpsSpeedAp, s.gpsSpeed, 10)
       + PacketPair(IdGpsAltBp, IdGpsAltAp, s.gpsAltitude, 10)
       + PacketPair(IdGpsCoursBp, IdGpsCoursAp, s.gpsHeading, 10)
       + CoordPackets(s.latitude, s.longitude) + [Sentinel]
     else [])
    + Packet(IdGpsStat, GPSStatWord(s.noOfSats, s.fix, s.gpsValid, s.originValid))
  }

  /** The first part of the fast frame: altitude, climb rate, battery,
      one cell, current and charge used. */
  function PowerPackets(s: HubSnapshot, cell: nat): seq<byte>
    requires s.Valid() && cell < TwoTo16
  {
    PacketPair(IdBaroAltBp, IdBaroAltAp, s.baroAltitude, 10)
    + Packet(IdVario, s.vario)
    + PacketPair(IdVoltsBp, IdVoltsAp, s.voltsHalf, 100)
    + Packet(IdVolts, HubCellPayload(s.cellVoltage, cell as bv16) as int)
    + Packet(IdCurrent, s.current)
    + Packet(IdMilliAmpHours, s.chargeUsed)
  }

  /** Regrouping the six writes of the power part into one. */
  lemma PowerPacketsSent(s0: seq<byte>, sent: seq<byte>, s: HubSnapshot, cell: nat)
    requires s.Valid() && cell < TwoTo16
    requires sent == s0 + PacketPair(IdBaroAltBp, IdBaroAltAp, s.baroAltitude, 10)
      + Packet(IdVario, s.vario)
      + PacketPair(IdVoltsBp, IdVoltsAp, s.voltsHalf, 100)
      + Packet(IdVolts, HubCellPayload(s.cellVoltage, cell as bv16) as int)
      + Packet(IdCurrent, s.current)
      + Packet(IdMilliAmpHours, s.chargeUsed)
    ensures sent == s0 + PowerPackets(s, cell)
  {
    AppendSix(s0, PacketPair(IdBaroAltBp, IdBaroAltAp, s.baroAltitude, 10), Packet(IdVario, s.vario),
      PacketPair(IdVoltsBp, IdVoltsAp, s.voltsHalf, 100),
      Packet(IdVolts, HubCellPayload(s.cellVoltage, cell as bv16) as int),
      Packet(IdCurrent, s.current), Packet(IdMilliAmpHours, s.chargeUsed));
  }

  function FastFrame(s: HubSnapshot, cell: nat): seq<byte>
    requires s.Valid() && cell < TwoTo16
  {
    PowerPackets(s, cell) + AxisPackets(IdGyroX, s.rates) + AxisPackets(IdPitch, s.angles) + [Sentinel]
  }

  function Frame(k: FrameKind, s: HubSnapshot, cell: nat): seq<byte>
    requires s.Valid() && cell < TwoTo16
  {
    match k
    case Slow => SlowFrame(s)
    case Medium => MediumFrame(s)
    case Fast => FastFrame(s, cell)
  }

  function Count(ks: seq<FrameKind>, k: FrameKind): nat
  {
    if ks == [] then 0 else (if ks[0] == k then 1 else 0) + Count(ks[1..], k)
  }

  /** The frame kinds chosen by `n` successive calls from `FrameCount == c`. */
  function KindsFrom(c: nat, n: nat): seq<FrameKind>
    decreases n
  {
    if n == 0 then [] else [KindOf(c)] + KindsFrom(NextFrameCount(c), n - 1)
  }

  /** Counting frame kinds over calls that find counts `c .. c+n-1`. */
  lemma {:induction false} KindCounts(c: nat, n: nat)
    requires c + n <= 40
    decreases n
    ensures Count(KindsFrom(c, n), Slow) == if n > 0 && c + n == 40 then 1 else 0
    ensures Count(KindsFrom(c, n), Medium)
            == (c + n) / 5 - c / 5 - (if n > 0 && c + n == 40 then 1 else 0)
    ensures Count(KindsFrom(c, n), Fast) == n - (c + n) / 5 + c / 5
  {
    if n > 0 {
      var ks := KindsFrom(c, n);
      if c == 39 {
        assert ks == [Slow] + KindsFrom(0, 0);
        assert ks[1..] == [];
      } else {
        KindCounts(c + 1, n - 1);
        assert ks == [KindOf(c)] + KindsFrom(c + 1, n - 1);
        assert ks[1..] == KindsFrom(c + 1, n - 1);
        assert (c + 1) / 5 == c / 5 + (if (c + 1) % 5 == 0 then 1 else 0);
      }
    }
  }

  /** Forty calls from a fresh counter: one slow frame, seven medium ones
      (counts 5, 10, ..., 35) and thirty-two fast ones. */
  lemma FortyCallCycle()
    ensures |KindsFrom(0, 40)| == 40
    ensures Count(KindsFrom(0, 40), Slow) == 1
    ensures Count(KindsFrom(0, 40), Medium) == 7
    ensures Count(KindsFrom(0, 40), Fast) == 32
    ensures forall i :: 0 <= i < 40 ==> (KindsFrom(0, 40)[i] == Medium <==> i + 1 < 40 && (i + 1) % 5 == 0)
  {
    KindCounts(0, 40);
    KindsFromAt(0, 40);
  }

  lemma {:induction false} KindsFromAt(c: nat, n: nat)
    requires c + n <= 40
    decreases n
    ensures |KindsFrom(c, n)| == n
    ensures forall i :: 0 <= i < n ==> KindsFrom(c, n)[i] == KindOf(c + i)
  {
    if n > 0 && c < 39 {
      KindsFromAt(c + 1, n - 1);
    }
  }

  // ---------------------------------------------------------------------
  // Senders: each writes its bytes to the serial port

  method TxFrSkyHeader(port: TxPort)
    modifies port
    ensures port.sent == old(port.sent) + [Sentinel]
  {
    port.TxChar(Sentinel);
  }

  method TxFrSky(port: TxPort, data: byte)
    modifies port
    ensures port.sent == old(port.sent) + Stuff(data)
  {
    if data == 0x5E {
      port.TxChar(0x5D);
      port.TxChar(0x3E);
    } else if data == 0x5D {
      port.TxChar(0x5D);
      port.TxChar(0x3D);
    } else {
      port.TxChar(data);
    }
  }

  method TxFrSky16(port: TxPort, a: int)
    modifies port
    ensures port.sent == old(port.sent) + Stuff16(a)
  {
    TxFrSky(port, a % 256);
    TxFrSky(port, (a / 256) % 256);
  }

  method TxFrSkyPacket(port: TxPort, id: byte, v: int)
    modifies port
    ensures port.sent == old(port.sent) + Packet(id, v)
  {
    TxFrSkyHeader(port);
    TxFrSky(port, id);
    TxFrSky16(port, v);
  }

  method TxFrSkyPacketPair(port: TxPort, id1: byte, id2: byte, v: int, frac: nat)
    requires frac > 0
    modifies port
    ensures port.sent == old(port.sent) + PacketPair(id1, id2, v, frac)
  {
    TxFrSkyPacket(port, id1, v);
    TxFrSkyPacket(port, id2, MakeFrac(v as real, frac));
  }

  method TxFrSkyTime(port: TxPort, clockMs: nat)
    modifies port
    ensures port.sent == old(port.sent) + TimePackets(clockMs)
  {
    var seconds := (clockMs % TwoTo32) / 1000;
    var minutes := (seconds / 60) % 60;
    TxFrSkyPacket(port, IdGpsHourMin, minutes * 256);
    TxFrSkyPacket(port, IdGpsSec, seconds % 60);
    Append(old(port.sent), Packet(IdGpsHourMin, minutes * 256), Packet(IdGpsSec, seconds % 60));
  }

  method TxFrSkyWhere(port: TxPort, s: HubSnapshot)
    modifies port
    ensures port.sent == old(port.sent) + WherePackets(s)
  {
    if s.navInRange {
      var s0 := port.sent;
      var p1 := Packet(IdWhereDist, s.navDistance);
      var p2 := Packet(IdWhereBear, s.navBearing);
      var p3 := Packet(IdWhereElev, s.navElevation);
      TxFrSkyPacket(port, IdWhereDist, s.navDistance);
      TxFrSkyPacket(port, IdWhereBear, s.navBearing);
      Append(s0, p1, p2);
      TxFrSkyPacket(port, IdWhereElev, s.navElevation);
      Append(s0, p1 + p2, p3);
      TxFrSkyPacket(port, IdWhereHint, s.navHint);
      Append(s0, p1 + p2 + p3, Packet(IdWhereHint, s.navHint));
    } else {
      assert port.sent == old(port.sent) + [];
    }
  }

  method TxFrSkyGPSCoords(port: TxPort, lat: int, lon: int)
    requires Int32Min < lat < Int32Limit && Int32Min < lon < Int32Limit
    modifies port
    ensures port.sent == old(port.sent) + CoordPackets(lat, lon)
  {
    var s0 := port.sent;
    var c := GPStoDDDMM(lat);
    var p1 := Packet(IdGpsLatBp, c.bp);
    var p2 := Packet(IdGpsLatAp, c.ap);
    var p3 := Packet(IdGpsLatNS, if lat < 0 then 'S' as int else 'N' as int);
    TxFrSkyPacket(port, IdGpsLatBp, c.bp);
    TxFrSkyPacket(port, IdGpsLatAp, c.ap);
    Append(s0, p1, p2);
    TxFrSkyPacket(port, IdGpsLatNS, if lat < 0 then 'S' as int else 'N' as int);
    Append(s0, p1 + p2, p3);
    c := GPStoDDDMM(lon);
    var p4 := Packet(IdGpsLongBp, c.bp);
    var p5 := Packet(IdGpsLongAp, c.ap);
    var p6 := Packet(IdGpsLongEW, if lon < 0 then 'W' as int else 'E' as int);
    TxFrSkyPacket(port, IdGpsLongBp, c.bp);
    Append(s0, p1 + p2 + p3, p4);
    TxFrSkyPacket(port, IdGpsLongAp, c.ap);
    Append(s0, p1 + p2 + p3 + p4, p5);
    TxFrSkyPacket(port, IdGpsLongEW, if lon < 0 then 'W' as int else 'E' as int);
    Append(s0, p1 + p2 + p3 + p4 + p5, p6);
  }

  /** The loop of `TxFrSkyGyro` / `TxFrSkyAttitude`. */
  method TxFrSkyAxes(port: TxPort, firstId: byte, vs: seq<int>)
    requires firstId + |vs| <= 256
    modifies port
    ensures port.sent == old(port.sent) + AxisPackets(firstId, vs)
  {
    ghost var s0 := port.sent;
    for a := 0 to |vs|
      invariant port.sent == s0 + AxisPackets(firstId, vs[..a])
    {
      ghost var done, packet := AxisPackets(firstId, vs[..a]), Packet(firstId + a, vs[a]);
      TxFrSkyPacket(port, firstId + a, vs[a]);
      assert port.sent == s0 + done + packet;
      Append(s0, done, packet);
      AxisPacketsSnoc(firstId, vs, a);
    }
    assert vs[..|vs|] == vs;
  }

  /** The state the Hub encoder keeps between calls: the static
      `FrameCount` of the scheduler and the static `currentCell` of the
      cell-voltage sender. */
  class HubTelemetry {
    var frameCount: nat
    var currentCell: nat

    ghost predicate Valid()
      reads this
    {
      frameCount < 40 && currentCell < 256
    }

    constructor ()
      ensures Valid() && frameCount == 0 && currentCell == 0
    {
      frameCount := 0;
      currentCell := 0;
    }

    /** Sends the current cell's packet and moves on to the next cell. */
    method TxFrSkyCellVoltages(port: TxPort, cellVoltage: bv32, cellCount: nat)
      requires Valid() && cellCount < 256
      modifies this`currentCell, port
      ensures Valid()
      ensures port.sent == old(port.sent) + Packet(IdVolts, HubCellPayload(cellVoltage, old(currentCell) as bv16) as int)
      ensures currentCell == NextHubCell(old(currentCell), cellCount)
    {
      var payload := HubCellPayload(cellVoltage, currentCell as bv16);
      TxFrSkyPacket(port, IdVolts, payload as int);
      currentCell := (currentCell + 1) % TwoTo16;
      if currentCell >= cellCount {
        currentCell := 0;
      }
    }

    /** One call of the scheduler: the fortieth call sends the slow frame
        and restarts the count, every fifth call the medium frame, every
        other call the fast frame. */
    method SendFrSkyTelemetry(port: TxPort, s: HubSnapshot)
      requires Valid() && s.Valid()
      modifies this, port
      ensures Valid()
      ensures frameCount == NextFrameCount(old(frameCount))
      ensures port.sent == old(port.sent) + Frame(KindOf(old(frameCount)), s, old(currentCell))
      ensures currentCell
              == if KindOf(old(frameCount)) == Fast then NextHubCell(old(currentCell), s.cellCount)
                 else old(currentCell)
    {
      frameCount := frameCount + 1;
      if frameCount == 40 {
        SendSlowFrame(port, s);
        frameCount := 0;
      } else if frameCount % 5 == 0 {
        SendMediumFrame(port, s);
      } else {
        SendFastFrame(port, s);
      }
    }

    /** Frame 3, every 8 seconds: time of day and baro temperature. */
    method SendSlowFrame(port: TxPort, s: HubSnapshot)
      modifies port
      ensures port.sent == old(port.sent) + SlowFrame(s)
    {
      ghost var s0 := port.sent;
      TxFrSkyTime(port, s.clockMs);
      TxFrSkyPacket(port, IdTemp1, s.baroTemperature);
      Append(s0, TimePackets(s.clockMs), Packet(IdTemp1, s.baroTemperature));
      port.TxChar(Sentinel);
      Append(s0, TimePackets(s.clockMs) + Packet(IdTemp1, s.baroTemperature), [Sentinel]);
    }

    /** Frame 2, every second: the GPS block when the fix is valid, then
        the GPS status word in any case. */
    method SendMediumFrame(port: TxPort, s: HubSnapshot)
      requires s.Valid()
      modifies port
      ensures port.sent == old(port.sent) + MediumFrame(s)
    {
      ghost var s0 := port.sent;
      ghost var gps: seq<byte> := [];
      if s.gpsValid {
        ghost var w: seq<byte> := [];
        if s.originValid {
          TxFrSkyWhere(port, s);
          w := WherePackets(s);
        } else {
          assert port.sent == s0 + w;
        }
        ghost var speed := PacketPair(IdGpsSpeedBp, IdGpsSpeedAp, s.gpsSpeed, 10);
        ghost var alt := PacketPair(IdGpsAltBp, IdGpsAltAp, s.gpsAltitude, 10);
        ghost var heading := PacketPair(IdGpsCoursBp, IdGpsCoursAp, s.gpsHeading, 10);
        ghost var coords := CoordPackets(s.latitude, s.longitude);
        TxFrSkyPacketPair(port, IdGpsSpeedBp, IdGpsSpeedAp, s.gpsSpeed, 10);
        Append(s0, w, speed);
        TxFrSkyPacketPair(port, IdGpsAltBp, IdGpsAltAp, s.gpsAltitude, 10);
        Append(s0, w + speed, alt);
        TxFrSkyPacketPair(port, IdGpsCoursBp, IdGpsCoursAp, s.gpsHeading, 10);
        Append(s0, w + speed + alt, heading);
        TxFrSkyGPSCoords(port, s.latitude, s.longitude);
        Append(s0, w + speed + alt + heading, coords);
        port.TxChar(Sentinel);
        Append(s0, w + speed + alt + heading + coords, [Sentinel]);
        gps := w + speed + alt + heading + coords + [Sentinel];
      } else {
        assert port.sent == s0 + gps;
      }
      ghost var stat := Packet(IdGpsStat, GPSStatWord(s.noOfSats, s.fix, s.gpsValid, s.originValid));
      TxFrSkyPacket(port, IdGpsStat, GPSStatWord(s.noOfSats, s.fix, s.gpsValid, s.originValid));
      Append(s0, gps, stat);
    }

    /** Frame 1, every 200 ms: baro, vario, voltages, one cell, current,
        charge used, rates and attitude. */
    method SendFastFrame(port: TxPort, s: HubSnapshot)
      requires Valid() && s.Valid()
      modifies this`currentCell, port
      ensures Valid()
      ensures port.sent == old(port.sent) + FastFrame(s, old(currentCell))
      ensures currentCell == NextHubCell(old(currentCell), s.cellCount)
    {
      ghost var s0 := port.sent;
      ghost var power := PowerPackets(s, currentCell);
      SendPowerPackets(port, s);
      ghost var rates := AxisPackets(IdGyroX, s.rates);
      TxFrSkyAxes(port, IdGyroX, s.rates);
      Append(s0, power, rates);
      ghost var angles := AxisPackets(IdPitch, s.angles);
      TxFrSkyAxes(port, IdPitch, s.angles);
      Append(s0, power + rates, angles);
      port.TxChar(Sentinel);
      Append(s0, power + rates + angles, [Sentinel]);
    }

    /** The power part of the fast frame, in the order the fast frame
        sends it. */
    method SendPowerPackets(port: TxPort, s: HubSnapshot)
      requires Valid() && s.Valid()
      modifies this`currentCell, port
      ensures Valid()
      ensures port.sent == old(port.sent) + PowerPackets(s, old(currentCell))
      ensures currentCell == NextHubCell(old(currentCell), s.cellCount)
    {
      ghost var s0, cell := port.sent, currentCell;
      TxFrSkyPacketPair(port, IdBaroAltBp, IdBaroAltAp, s.baroAltitude, 10);
      TxFrSkyPacket(port, IdVario, s.vario);
      TxFrSkyPacketPair(port, IdVoltsBp, IdVoltsAp, s.voltsHalf, 100);
      TxFrSkyCellVoltages(port, s.cellVoltage, s.cellCount);
      TxFrSkyPacket(port, IdCurrent, s.current);
      TxFrSkyPacket(port, IdMilliAmpHours, s.chargeUsed);
      PowerPacketsSent(s0, port.sent, s, cell);
    }
  }
}

/** The legacy SmartPort variant, ported from a SmartPort-to-MAVLink
    bridge: each poll of one of four sensor ids is answered from a
    20-slot counter with a package that is sent without byte escaping,
    its checksum kept in a global. */
module FrSkyLegacy {
  import opened FrSkyBytes
  import FrSkySPort

  const StartStop: byte := 0x7E
  const DataFrame: byte := 0x10
  const SensorId1: byte := 0x1B
  const SensorId2: byte := 0x0D
  const SensorId3: byte := 0x34
  const SensorId4: byte := 0x67
  const MaxIdCount: nat := 19

  /** `FSSP_ID_RPM`, the one id this variant sends that the CleanFlight
      table does not. */
  const IdRpm: uint16 := 0x050F

  // ---------------------------------------------------------------------
  // Checksum and packages

  /** The checksum of a run of raw bytes, folded in from `crc`. */
  function RawCrc(crc: byte, bs: seq<byte>): byte
    decreases |bs|
  {
    if bs == [] then crc else RawCrc(FrSkySPort.Fold(crc, bs[0]), bs[1..])
  }

  /** Folding byte by byte as the sender does equals folding the run. */
  lemma {:induction false} RawCrcSnoc(crc: byte, bs: seq<byte>, x: byte)
    ensures RawCrc(crc, bs + [x]) == FrSkySPort.Fold(RawCrc(crc, bs), x)
    decreases |bs|
  {
    if bs != [] {
      assert (bs + [x])[1..] == bs[1..] + [x];
      RawCrcSnoc(FrSkySPort.Fold(crc, bs[0]), bs[1..], x);
    }
  }

  /** A package as `FrSkySPort_SendPackage` writes it after a checksum
      start value `crc`: the data-frame byte, the id and the value little
      endian, then 0xFF minus the checksum; no byte is escaped. */
  function Package(crc: byte, id: uint16, value: int): (r: seq<byte>)
    ensures |r| == 8 && r[0] == DataFrame
  {
    PackageBody(id, value) + [0xFF - RawCrc(crc, PackageBody(id, value))]
  }

  /** The seven bytes of a package before its checksum. */
  function PackageBody(id: uint16, value: int): (r: seq<byte>)
    ensures |r| == 7
  {
    [DataFrame] + LE16(id) + LE32(value)
  }

  /** The seven bytes written one `FrSkySPort_SendByte` at a time, then
      the checksum, make up the package. */
  lemma PackageSent(s0: seq<byte>, c0: byte, id: uint16, value: int, sent: seq<byte>, crc: byte, final: seq<byte>)
    requires var i, v := LE16(id), LE32(value);
      sent == s0 + [DataFrame] + [i[0]] + [i[1]] + [v[0]] + [v[1]] + [v[2]] + [v[3]]
    requires var i, v := LE16(id), LE32(value);
      crc == FrSkySPort.Fold(FrSkySPort.Fold(FrSkySPort.Fold(FrSkySPort.Fold(
               FrSkySPort.Fold(FrSkySPort.Fold(FrSkySPort.Fold(c0, DataFrame), i[0]), i[1]), v[0]), v[1]), v[2]), v[3])
    requires final == sent + [0xFF - crc]
    ensures final == s0 + Package(c0, id, value)
  {
    var body := PackageBody(id, value);
    assert sent == s0 + body;
    RawCrcSeven(c0, body);
  }

  /** The checksum of seven bytes, unrolled. */
  lemma RawCrcSeven(c0: byte, b: seq<byte>)
    requires |b| == 7
    ensures RawCrc(c0, b) == FrSkySPort.Fold(FrSkySPort.Fold(FrSkySPort.Fold(FrSkySPort.Fold(
              FrSkySPort.Fold(FrSkySPort.Fold(FrSkySPort.Fold(c0, b[0]), b[1]), b[2]), b[3]), b[4]), b[5]), b[6])
  {
    assert b[0..] == b;
    var c1 := RawCrcStep(c0, b, 0);
    var c2 := RawCrcStep(c1, b, 1);
    var c3 := RawCrcStep(c2, b, 2);
    var c4 := RawCrcStep(c3, b, 3);
    var c5 := RawCrcStep(c4, b, 4);
    var c6 := RawCrcStep(c5, b, 5);
    var c7 := RawCrcStep(c6, b, 6);
  }

  /** The checksum of a suffix, one byte taken off its front. */
  lemma RawCrcStep(c: byte, b: seq<byte>, k: nat) returns (c': byte)
    requires k < |b|
    ensures c' == FrSkySPort.Fold(c, b[k])
    ensures RawCrc(c, b[k..]) == RawCrc(c', b[k + 1..])
  {
    c' := FrSkySPort.Fold(c, b[k]);
    assert b[k..][1..] == b[k + 1..];
  }

  /** A receiver of legacy packages: eight bytes, the data-frame byte and
      a matching checksum. */
  function DecodePackage(p: seq<byte>): (r: Option<(int, int)>)
    ensures r.Some? ==> 0 <= r.value.0 < TwoTo16 && 0 <= r.value.1 < TwoTo32
  {
    if |p| == 8 && p[0] == DataFrame && p[7] == 0xFF - RawCrc(0, p[..7])
    then Some((FromLE16(p[1..3]), FromLE32(p[3..7])))
    else None
  }

  /** Every package started from a reset checksum is accepted and gives
      back its id and the low 32 bits of its value. */
  lemma PackageRoundTrip(id: uint16, value: int)
    ensures DecodePackage(Package(0, id, value)) == Some((id as int, value % TwoTo32))
  {
    var p := Package(0, id, value);
    var body := [DataFrame] + LE16(id) + LE32(value);
    assert p[..7] == body;
    assert p[1..3] == LE16(id);
    assert p[3..7] == LE32(value);
    LE16RoundTrip(id);
    LE32RoundTrip(value);
  }

  // ---------------------------------------------------------------------
  // Against the CleanFlight frame

  /** Neither 0x7D nor 0x7E: a byte both encoders send unchanged. */
  predicate Plain(b: byte)
  {
    b != FrSkySPort.ByteStuff && b != FrSkySPort.StartStop
  }

  lemma {:induction false} EscapePlain(bs: seq<byte>)
    requires forall i :: 0 <= i < |bs| ==> Plain(bs[i])
    ensures FrSkySPort.EscapeAll(bs) == bs
    decreases |bs|
  {
    if bs != [] {
      EscapePlain(bs[1..]);
    }
  }

  lemma {:induction false} CrcPlain(crc: byte, bs: seq<byte>)
    requires forall i :: 0 <= i < |bs| ==> Plain(bs[i])
    ensures FrSkySPort.CrcFrom(crc, bs) == RawCrc(crc, bs)
    decreases |bs|
  {
    if bs != [] {
      CrcPlain(FrSkySPort.Fold(crc, bs[0]), bs[1..]);
    }
  }

  /** When no byte of a package needs escaping, the legacy package and
      the CleanFlight frame are the same bytes. */
  lemma PlainPackagesAgree(id: uint16, value: int)
    requires forall i :: 0 <= i < 8 ==> Plain(Package(0, id, value)[i])
    ensures FrSkySPort.SPortFrame(id, value) == Package(0, id, value)
  {
    var body := [DataFrame] + LE16(id) + LE32(value);
    var p := Package(0, id, value);
    assert body == p[..7] && body == FrSkySPort.FrameBody(id, value);
    EscapePlain(body);
    CrcPlain(0, body);
    assert p[7] == 0xFF - RawCrc(0, body);
  }

  /** Without escaping a value byte can equal the start byte 0x7E, which
      the CleanFlight frame of the same reading never contains. */
  lemma StartByteInsidePackage()
    ensures StartStop in Package(0, FrSkySPort.IdAltitude, 0x7E)
    ensures StartStop !in FrSkySPort.SPortFrame(FrSkySPort.IdAltitude, 0x7E)
  {
    var p := Package(0, FrSkySPort.IdAltitude, 0x7E);
    assert LE32(0x7E)[0] == 0x7E;
    assert p[3] == 0x7E;
  }

  /** The plain sum of a run of raw bytes. */
  function ByteSum(bs: seq<byte>): nat
  {
    if bs == [] then 0 else bs[0] + ByteSum(bs[1..])
  }

  /** How many bytes of a run the CleanFlight sender escapes. */
  function Escaped(bs: seq<byte>): (k: nat)
    ensures k <= |bs|
  {
    if bs == [] then 0 else (if Plain(bs[0]) then 0 else 1) + Escaped(bs[1..])
  }

  /** The legacy checksum is the end-around-carry sum of the raw bytes. */
  lemma {:induction false} RawCrcResidue(crc: byte, bs: seq<byte>)
    ensures RawCrc(crc, bs) % 255 == (crc + ByteSum(bs)) % 255
    decreases |bs|
  {
    if bs != [] {
      var f := FrSkySPort.Fold(crc, bs[0]);
      RawCrcResidue(f, bs[1..]);
      FrSkySPort.FoldResidue(crc, bs[0]);
      FrSkySPort.ModAdd(f, crc + bs[0], ByteSum(bs[1..]));
    }
  }

  /** Each escaped byte enters the CleanFlight checksum 0x20 lower than
      its raw value. */
  lemma {:induction false} WireSumEscaped(bs: seq<byte>)
    ensures FrSkySPort.WireSum(bs) + 0x20 * Escaped(bs) == ByteSum(bs)
    decreases |bs|
  {
    if bs != [] {
      WireSumEscaped(bs[1..]);
      assert FrSkySPort.Wire(0x7D) == 0x5D && FrSkySPort.Wire(0x7E) == 0x5E;
    }
  }

  /** A run has no escaped byte exactly when every byte is plain. */
  lemma {:induction false} NoneEscaped(bs: seq<byte>)
    ensures Escaped(bs) == 0 <==> forall i :: 0 <= i < |bs| ==> Plain(bs[i])
    decreases |bs|
  {
    if bs != [] {
      NoneEscaped(bs[1..]);
      assert forall i :: 1 <= i < |bs| ==> bs[i] == bs[1..][i - 1];
    }
  }

  /** Adding less than 255 always changes a residue modulo 255. */
  lemma ShiftResidue(x: int, d: int)
    requires 0 < d < 255
    ensures (x + d) % 255 != x % 255
  {
  }

  /** The CleanFlight checksum covers each byte after the escape XOR, not
      the byte before escaping. It agrees with the sum over the unescaped
      bytes (the legacy `RawCrc`, which is why this lemma sits here) exactly
      when no id or value byte is 0x7D or 0x7E; so a receiver that summed
      the unescaped bytes would reject every frame with such a byte, and
      only those. */
  lemma ChecksumAfterXor(id: uint16, value: int)
    ensures var body := FrSkySPort.FrameBody(id, value);
      FrSkySPort.CrcFrom(0, body) == RawCrc(0, body)
      <==> forall i :: 0 <= i < 7 ==> Plain(body[i])
  {
    var body := FrSkySPort.FrameBody(id, value);
    NoneEscaped(body);
    if Escaped(body) == 0 {
      CrcPlain(0, body);
    } else {
      FrSkySPort.CrcResidue(0, body);
      RawCrcResidue(0, body);
      WireSumEscaped(body);
      ShiftResidue(FrSkySPort.WireSum(body), 0x20 * Escaped(body));
    }
  }

  // ---------------------------------------------------------------------
  // Payloads

  /** The longitude word: bit 31 set, bit 30 when west, below them
      |east| / 100 * 6, the magnitude in 1/10000 minute rounded down
      to a multiple of 6. */
  function LegacyLon(east: int32): (p: int)
    ensures 0x8000_0000 <= p < TwoTo32
    ensures p / 0x4000_0000 == if east < 0 then 3 else 2
    ensures p % 0x4000_0000 == Abs(east) / 100 * 6
  {
    var m := Abs(east) / 100 * 6;
    if east < 0 then m + 0xC000_0000 else m + 0x8000_0000
  }

  /** The latitude word: bit 31 clear, bit 30 when south, the magnitude as
      for the longitude. */
  function LegacyLat(north: int32): (p: int)
    ensures 0 <= p < 0x8000_0000
    ensures p / 0x4000_0000 == if north < 0 then 1 else 0
    ensures p % 0x4000_0000 == Abs(north) / 100 * 6
  {
    var m := Abs(north) / 100 * 6;
    if north < 0 then m + 0x4000_0000 else m
  }

  /** The legacy magnitude is within 6 of the exact |x| * 6 / 100. */
  lemma LegacyMagnitude(x: int)
    ensures 6 * Abs(x) - 600 < 100 * (Abs(x) / 100 * 6) <= 6 * Abs(x)
  {
  }

  /** A CELLS word: the same 12-bit voltage for two cells, at bits 20 and
      8, and the index of the pair's first cell in the low byte. */
  function LegacyCells(cellVolts: int, offset: byte): (p: int)
    ensures 0 <= p < TwoTo32
    ensures p / 0x10_0000 == cellVolts % 0x1000
    ensures (p / 256) % 0x1000 == cellVolts % 0x1000
    ensures p % 256 == offset
  {
    var t := cellVolts % 0x1000;
    var p := t * 0x10_0000 + t * 256 + offset;
    DivModUnique(p, 0x10_0000, t, t * 256 + offset);
    DivModUnique(p, 256, t * 0x1000 + t, offset);
    DivModUnique(p / 256, 0x1000, t, t);
    p
  }

  // ---------------------------------------------------------------------
  // The poll counter

  /** The flight state the legacy encoder reads, already converted to the
      integers its packages carry. */
  datatype LegacySnapshot = LegacySnapshot(
    gpsFix: int,           // GPS.fix
    speed20: int,          // GPS.gspeed * 20
    throttle2: int,        // DesiredThrottle * 2
    current100: int,       // BatteryCurrent * 100
    baroAltitude100: int,  // BaroAltitude * 100
    east: int32,           // GPS.Raw[EastC], 1e-7 degree
    north: int32,          // GPS.Raw[NorthC]
    heading100: int,       // RadiansToDegrees(Heading) * 100
    cellVolts: int,        // (uint32)(BatteryVolts / (BatteryCellCount * 2))
    cellCount: int,        // BatteryCellCount
    accX100: int,          // Acc[X] * 100
    accY100: int,          // Acc[Y] * 100
    accZ100: int,          // Acc[Z] * 100
    voltsTenth: int,       // BatteryVolts / 10
    roc100: int,           // ROC * 100
    gpsAlt100: int)        // GPS.altitude * 100

  /** The id each counter value answers with; 0 marks the slots whose
      `case` sends nothing. */
  const SlotIds: seq<uint16> :=
    [FrSkySPort.IdSpeed, IdRpm, FrSkySPort.IdCurrent, FrSkySPort.IdAltitude,
     FrSkySPort.IdLatLong, FrSkySPort.IdLatLong, FrSkySPort.IdHeading, 0,
     FrSkySPort.IdCells, FrSkySPort.IdCells, FrSkySPort.IdCells,
     FrSkySPort.IdAccX, FrSkySPort.IdAccY, FrSkySPort.IdAccZ, FrSkySPort.IdVfas,
     0, 0, FrSkySPort.IdVario, FrSkySPort.IdGpsAlt, 0]

  /** Whether the `case` for `count` sends: a listed id, and for the GPS
      slots a 3D fix, for the extra cell pairs enough cells. */
  predicate Sends(count: nat, s: LegacySnapshot)
    requires count <= MaxIdCount
  {
    && SlotIds[count] != 0
    && (count == 0 || count == 4 || count == 5 ==> s.gpsFix == 3)
    && (count == 9 ==> s.cellCount > 2)
    && (count == 10 ==> s.cellCount > 4)
  }

  /** The value the `case` for `count` sends. */
  function SlotValue(count: nat, s: LegacySnapshot): int
    requires count <= MaxIdCount
  {
    match count
    case 0 => s.speed20
    case 1 => s.throttle2
    case 2 => s.current100
    case 3 => s.baroAltitude100
    case 4 => LegacyLon(s.east)
    case 5 => LegacyLat(s.north)
    case 6 => s.heading100
    case 8 => LegacyCells(s.cellVolts, 0)
    case 9 => LegacyCells(s.cellVolts, if s.cellCount > 3 then 2 else 1)
    case 10 => LegacyCells(s.cellVolts, if s.cellCount > 5 then 4 else 3)
    case 11 => s.accX100
    case 12 => s.accY100
    case 13 => s.accZ100
    case 14 => s.voltsTenth
    case 17 => s.roc100
    case 18 => s.gpsAlt100
    case _ => 0
  }

  /** The answer to a poll with the counter at `count`. */
  function Response(count: nat, s: LegacySnapshot): seq<byte>
    requires count <= MaxIdCount
  {
    if Sends(count, s) then Package(0, SlotIds[count], SlotValue(count, s)) else []
  }

  /** An answer is nothing or one package carrying the slot's id. */
  lemma ResponseDecodes(count: nat, s: LegacySnapshot)
    requires count <= MaxIdCount
    ensures Response(count, s) == [] <==> !Sends(count, s)
    ensures Sends(count, s) ==>
      DecodePackage(Response(count, s)) == Some((SlotIds[count] as int, SlotValue(count, s) % TwoTo32))
  {
    if Sends(count, s) {
      PackageRoundTrip(SlotIds[count], SlotValue(count, s));
    }
  }

  /** The counter after a poll: one up, back to 0 after 19. */
  function NextCount(count: nat): (n: nat)
    requires count <= MaxIdCount
    ensures n <= MaxIdCount
    ensures n == (count + 1) % (MaxIdCount + 1)
  {
    if count + 1 > MaxIdCount then 0 else count + 1
  }

  /** What the receive loop remembers between bytes. */
  datatype Link = Link(lastRx: byte, count: nat)

  /** A poll: a sensor id right after the start byte. */
  predicate Polled(lastRx: byte, data: byte)
  {
    lastRx == StartStop && (data == SensorId1 || data == SensorId2 || data == SensorId3 || data == SensorId4)
  }

  /** The link after receiving one byte. */
  function Receive(l: Link, data: byte): (r: Link)
    requires l.count <= MaxIdCount
    ensures r.count <= MaxIdCount && r.lastRx == data
  {
    Link(data, if Polled(l.lastRx, data) then NextCount(l.count) else l.count)
  }

  /** The link after receiving a run of bytes. */
  function Run(l: Link, input: seq<byte>): (r: Link)
    requires l.count <= MaxIdCount
    ensures r.count <= MaxIdCount
    decreases |input|
  {
    if input == [] then l else Run(Receive(l, input[0]), input[1..])
  }

  /** Everything answered while receiving a run of bytes. */
  function Responses(l: Link, input: seq<byte>, s: LegacySnapshot): seq<byte>
    requires l.count <= MaxIdCount
    decreases |input|
  {
    if input == [] then []
    else
      (if Polled(l.lastRx, input[0]) then Response(l.count, s) else [])
      + Responses(Receive(l, input[0]), input[1..], s)
  }

  /** The number of polls in a run of bytes received after `lastRx`. */
  function Polls(lastRx: byte, input: seq<byte>): nat
    decreases |input|
  {
    if input == [] then 0
    else (if Polled(lastRx, input[0]) then 1 else 0) + Polls(input[0], input[1..])
  }

  /** The counter moves by exactly the number of polls, modulo 20, and the
      link ends remembering the last byte. */
  lemma {:induction false} RunCountsPolls(l: Link, input: seq<byte>)
    requires l.count <= MaxIdCount
    ensures Run(l, input).count == (l.count + Polls(l.lastRx, input)) % (MaxIdCount + 1)
    ensures input != [] ==> Run(l, input).lastRx == input[|input| - 1]
    decreases |input|
  {
    if input == [] {
      DivModUnique(l.count, MaxIdCount + 1, 0, l.count);
    } else {
      var l' := Receive(l, input[0]);
      RunCountsPolls(l', input[1..]);
      var p := Polls(input[0], input[1..]);
      if Polled(l.lastRx, input[0]) {
        ModAddLeft(l.count + 1, p, MaxIdCount + 1);
      }
      if input[1..] != [] {
        assert input[1..][|input[1..]| - 1] == input[|input| - 1];
      }
    }
  }

  /** Bytes that hold no poll produce no answer. */
  lemma {:induction false} NoPollNoAnswer(l: Link, input: seq<byte>, s: LegacySnapshot)
    requires l.count <= MaxIdCount
    requires Polls(l.lastRx, input) == 0
    ensures Responses(l, input, s) == []
    ensures Run(l, input).count == l.count
    decreases |input|
  {
    if input != [] {
      NoPollNoAnswer(Receive(l, input[0]), input[1..], s);
    }
  }

  // ---------------------------------------------------------------------
  // The globals and the senders

  /** The legacy encoder's globals. */
  class LegacySPort {
    var crc: int       // crc, a short
    var lastRx: byte   // lastRx
    var count: nat     // FSSP_ID_count

    /** Between packages the checksum is reset and the counter in range. */
    ghost predicate Valid()
      reads this
    {
      crc == 0 && count <= MaxIdCount
    }

    /** The globals as the C startup code zeroes them. */
    constructor ()
      ensures Valid() && lastRx == 0 && count == 0
    {
      crc := 0;
      lastRx := 0;
      count := 0;
    }

    /** `FrSkySPort_SendByte`: sends the byte as it is and folds it into
        the checksum; the second carry fold never changes anything. */
    method SendByte(port: TxPort, b: byte)
      requires 0 <= crc <= 0xFF
      modifies this`crc, port
      ensures port.sent == old(port.sent) + [b]
      ensures crc == FrSkySPort.Fold(old(crc), b)
    {
      port.TxChar(b);
      crc := crc + b;
      crc := crc + crc / 256;
      crc := crc % 256;
      assert crc / 256 == 0;
      crc := crc + crc / 256;
      crc := crc % 256;
    }

    /** `FrSkySPort_SendCrc`: sends 0xFF minus the checksum, then resets
        it. */
    method SendCrc(port: TxPort)
      requires 0 <= crc <= 0xFF
      modifies this`crc, port
      ensures port.sent == old(port.sent) + [0xFF - old(crc)]
      ensures crc == 0
    {
      port.TxChar(0xFF - crc);
      crc := 0;
    }

    /** `FrSkySPort_SendPackage`: the data-frame byte, the id and the value
        byte by byte, then the checksum. */
    method SendPackage(port: TxPort, id: uint16, value: int)
      requires 0 <= crc <= 0xFF
      modifies this`crc, port
      ensures port.sent == old(port.sent) + Package(old(crc), id, value)
      ensures crc == 0
    {
      ghost var s0, c0 := port.sent, crc;
      var idBytes := LE16(id);
      var valBytes := LE32(value);
      SendByte(port, DataFrame);
      SendByte(port, idBytes[0]);
      SendByte(port, idBytes[1]);
      SendByte(port, valBytes[0]);
      SendByte(port, valBytes[1]);
      SendByte(port, valBytes[2]);
      SendByte(port, valBytes[3]);
      ghost var sent, check := port.sent, crc;
      SendCrc(port);
      PackageSent(s0, c0, id, value, sent, check, port.sent);
    }

    /** The `switch` of `FrSkySPort_Process` for one poll. */
    method Respond(port: TxPort, s: LegacySnapshot)
      requires Valid()
      modifies this`crc, port
      ensures crc == 0
      ensures port.sent == old(port.sent) + Response(count, s)
    {
      if count == 0 {
        if s.gpsFix == 3 {
          SendPackage(port, FrSkySPort.IdSpeed, s.speed20);
        }
      } else if count == 1 {
        SendPackage(port, IdRpm, s.throttle2);
      } else if count == 2 {
        SendPackage(port, FrSkySPort.IdCurrent, s.current100);
      } else if count == 3 {
        SendPackage(port, FrSkySPort.IdAltitude, s.baroAltitude100);
      } else {
        RespondPosition(port, s);
      }
    }

    /** The cases 4 to 6 of the `switch`: longitude, latitude and heading. */
    method RespondPosition(port: TxPort, s: LegacySnapshot)
      requires Valid() && count >= 4
      modifies this`crc, port
      ensures crc == 0
      ensures port.sent == old(port.sent) + Response(count, s)
    {
      if count == 4 {
        if s.gpsFix == 3 {
          var latlong := LegacyLon(s.east);
          SendPackage(port, FrSkySPort.IdLatLong, latlong);
        }
      } else if count == 5 {
        if s.gpsFix == 3 {
          var latlong := LegacyLat(s.north);
          SendPackage(port, FrSkySPort.IdLatLong, latlong);
        }
      } else if count == 6 {
        SendPackage(port, FrSkySPort.IdHeading, s.heading100);
      } else {
        RespondCells(port, s);
      }
    }

    /** The cases 7 to 10 of the `switch`: nothing, then the three cell
        pairs, the later two only when the battery has enough cells. */
    method RespondCells(port: TxPort, s: LegacySnapshot)
      requires Valid() && count >= 7
      modifies this`crc, port
      ensures crc == 0
      ensures port.sent == old(port.sent) + Response(count, s)
    {
      if count == 7 {
      } else if count == 8 {
        SendPackage(port, FrSkySPort.IdCells, LegacyCells(s.cellVolts, 0));
      } else if count == 9 {
        if s.cellCount > 2 {
          var offset := if s.cellCount > 3 then 2 else 1;
          SendPackage(port, FrSkySPort.IdCells, LegacyCells(s.cellVolts, offset));
        }
      } else if count == 10 {
        if s.cellCount > 4 {
          var offset := if s.cellCount > 5 then 4 else 3;
          SendPackage(port, FrSkySPort.IdCells, LegacyCells(s.cellVolts, offset));
        }
      } else {
        RespondHigh(port, s);
      }
    }

    /** The cases 11 to 19 of the `switch`. */
    method RespondHigh(port: TxPort, s: LegacySnapshot)
      requires Valid() && count >= 11
      modifies this`crc, port
      ensures crc == 0
      ensures port.sent == old(port.sent) + Response(count, s)
    {
      if count == 11 {
        SendPackage(port, FrSkySPort.IdAccX, s.accX100);
      } else if count == 12 {
        SendPackage(port, FrSkySPort.IdAccY, s.accY100);
      } else if count == 13 {
        SendPackage(port, FrSkySPort.IdAccZ, s.accZ100);
      } else if count == 14 {
        SendPackage(port, FrSkySPort.IdVfas, s.voltsTenth);
      } else if count == 17 {
        SendPackage(port, FrSkySPort.IdVario, s.roc100);
      } else if count == 18 {
        SendPackage(port, FrSkySPort.IdGpsAlt, s.gpsAlt100);
      }
    }

    /** `FrSkySPort_Process`: reads every byte available, answers each
        poll and advances the counter after it. */
    method FrSkySPortProcess(port: TxPort, input: seq<byte>, s: LegacySnapshot)
      requires Valid()
      modifies this`crc, this`lastRx, this`count, port
      ensures Valid()
      ensures Link(lastRx, count) == Run(Link(old(lastRx), old(count)), input)
      ensures port.sent == old(port.sent) + Responses(Link(old(lastRx), old(count)), input, s)
    {
      var i := 0;
      while i < |input|
        invariant 0 <= i <= |input| && Valid()
        invariant Run(Link(lastRx, count), input[i..]) == Run(Link(old(lastRx), old(count)), input)
        invariant port.sent + Responses(Link(lastRx, count), input[i..], s)
          == old(port.sent) + Responses(Link(old(lastRx), old(count)), input, s)
      {
        var data := input[i];
        ghost var before, l := port.sent, Link(lastRx, count);
        ghost var answer := if Polled(lastRx, data) then Response(count, s) else [];
        if lastRx == StartStop
          && (data == SensorId1 || data == SensorId2 || data == SensorId3 || data == SensorId4)
        {
          Respond(port, s);
          count := count + 1;
          if count > MaxIdCount {
            count := 0;
          }
        }
        lastRx := data;
        assert input[i..][1..] == input[i + 1..];
        assert Link(lastRx, count) == Receive(l, data);
        Append(before, answer, Responses(Link(lastRx, count), input[i + 1..], s));
        i := i + 1;
      }
    }
  }
}

# FrSky telemetry encoders of UAVXArm32F4

This project models the FrSky telemetry encoders of the UAVXArm32F4 flight
controller (`UAVXArm32F4/src/frsky.c`) and proves properties of the model in
Dafny. The file holds three encoders, chosen at compile time. Each one is a
module of its own here:

- `FrSkyHub` (hub.dfy) is the FrSky Hub encoder, the variant the firmware
  builds. It covers:
  - byte stuffing of 0x5E/0x5D;
  - the `0x5E, id, lo, hi` packet;
  - the BP/AP packet pairs;
  - the GPS conversion to degrees-minutes;
  - the cell-voltage payload with its rotating static `currentCell`;
  - the 40-call frame scheduler with its static `FrameCount`.
- `FrSkySPort` (sport.dfy) is the SmartPort encoder derived from
  CleanFlight. It covers:
  - 0x7D/0x7E escaping with the end-around-carry checksum;
  - the `0x10, id, value, checksum` frame;
  - the poll detector and the link-state predicates;
  - the zero-terminated round-robin data-id table, the LATLONG odd/even
    alternation, the CELLS payload and the T1/T2 status words.
- `FrSkyLegacy` (legacy.dfy) is the older SmartPort-to-MAVLink bridge. It
  covers:
  - the unescaped byte sender with its global checksum;
  - the checksum emit-and-reset;
  - the 20-slot poll counter that advances only when one of four sensor
    ids follows 0x7E.
- `FrSkyBytes` (common.dfy) holds what the three share:
  - the byte types;
  - the little-endian split that the C code does with pointer casts;
  - `TxPort`, the serial transmit stream. Every `TxChar` appends to it.

The code is modelled in the form it takes:

- Pure encoders are functions.
  - The framing encoders (stuffing, escaping, the Hub packet, the SmartPort
    frame and the legacy package) each have a receiver-side decoder
    (`Unstuff`, `Unescape`, `DecodePacket`, `DecodeFrame`,
    `DecodePackage`) and a round-trip lemma.
  - The payload encoders (`GPStoDDDMM`, the status and cell words, the
    clock fields, the LATLONG words) are characterised field by field, by
    their own contracts or by lemmas such as `HubCellFields` and
    `T1Digits`.
  - The decoders check the checksum with the sender's own fold. The
    independent statement of what that checksum is comes from
    `CrcResidue`.
- The static and global variables are fields of one class per encoder:
  `HubTelemetry`, `SPortTelemetry` and `LegacySPort`.
- The senders are methods that append to the port. Each one is proved
  against a function that says which bytes it writes.

Flight-state readings arrive as a snapshot datatype of integers that are
already converted. Clocks, received bytes and "more input waiting" are
parameters.

Each encoder's polling or scheduling loop is specified by a function over
its inputs:

- `FrameCount` and `Frame` for the Hub.
- `Service` for the SmartPort table search. It is the first answering
  entry from the counter's slot. The `while (FrSkySPortHasRequest)` loop is
  proved to end and to perform exactly that search.
- `Run` and `Responses` for the legacy receive loop.

The latitude word of the SmartPort LATLONG slot is modelled as written.
Its magnitude variable is never loaded from the GPS, so the word is 0, or
only bit 30 when south (`LatPayload`). Likewise, the BP/AP pairs hand
`MakeFrac` a value already converted to `int16`, so every AP packet carries
0 (`MakeFracOfInteger`).

The SmartPort checksum is taken over each byte as it goes on the wire,
after the escape XOR, not over the byte before escaping. A receiver that
summed the unescaped bytes would reject exactly the frames with an id or
value byte of 0x7D or 0x7E (`ChecksumAfterXor`). An escaped checksum byte
alone does not matter to such a receiver.

## Model

| member | source | states |
|---|---|---|
| FrSkyBytes.LE16 | UAVXArm32F4/src/frsky.c:531-533 | the two bytes the pointer cast reads from the `uint16` id, low byte first; their little-endian value is the argument modulo 2^16, and `LE16RoundTrip` reads them back |
| FrSkyBytes.LE32 | UAVXArm32F4/src/frsky.c:534-538 | the four bytes the pointer cast reads from the `uint32` value, low byte first; their little-endian value is the argument modulo 2^32, and `LE32RoundTrip` reads them back |
| FrSkyBytes.LE16RoundTrip | UAVXArm32F4/src/frsky.c:531-533 | reading back the two bytes of the `uint16` id, low byte first, gives the value modulo 2^16 (the value itself when it fits) |
| FrSkyBytes.LE32RoundTrip | UAVXArm32F4/src/frsky.c:534-538 | reading back the four bytes of the `uint32` value, low byte first, gives the value modulo 2^32 |
| FrSkyHub.Stuff | UAVXArm32F4/src/frsky.c:129-139 | a stuffed byte never contains 0x5E; 0x5E and 0x5D become two bytes, the marker 0x5D and a byte whose XOR 0x60 is the original; every other byte is sent unchanged |
| FrSkyHub.StuffByteRoundTrip | UAVXArm32F4/src/frsky.c:129-139 | the receiver's rule "0x5D x means x XOR 0x60" gives back every one of the 256 byte values |
| FrSkyHub.StuffAll | UAVXArm32F4/src/frsky.c:129-139 | a run of `TxFrSky` calls: the result never holds the sentinel and is at most twice as long; `StuffAllRoundTrip` proves the receiver gets the run back |
| FrSkyHub.StuffAllRoundTrip | UAVXArm32F4/src/frsky.c:129-139 | unstuffing a stuffed run of any length gives back the run |
| FrSkyHub.TxFrSkyHeader | UAVXArm32F4/src/frsky.c:125-127 | writes the sentinel 0x5E unstuffed |
| FrSkyHub.TxFrSky | UAVXArm32F4/src/frsky.c:129-139 | writes exactly the stuffed form of the byte |
| FrSkyHub.Stuff16 | UAVXArm32F4/src/frsky.c:141-144 | the stuffed low and high bytes of a 16-bit value, 2 to 4 bytes without the sentinel; `TxFrSky16` is proved to write exactly them and `PacketRoundTrip` reads the value back modulo 2^16 |
| FrSkyHub.TxFrSky16 | UAVXArm32F4/src/frsky.c:141-144 | writes the stuffed low byte and then the stuffed `(a >> 8) & 0xFF` of the 16-bit value |
| FrSkyHub.Packet | UAVXArm32F4/src/frsky.c:147-151 | a packet is 4 to 7 bytes, and 0x5E is its first byte and appears nowhere after it |
| FrSkyHub.PacketIsStuffedRun | UAVXArm32F4/src/frsky.c:147-151 | a packet is the sentinel followed by the stuffed run of id, low byte and high byte |
| FrSkyHub.PacketRoundTrip | UAVXArm32F4/src/frsky.c:147-151 | a receiver recovers the id and the low 16 bits of the value from every packet |
| FrSkyHub.TxFrSkyPacket | UAVXArm32F4/src/frsky.c:147-151 | writes exactly one packet for the id and value |
| FrSkyHub.Trunc | UAVXArm32F4/src/frsky.c:122 | the `int32` cast truncates toward zero: the result has the argument's sign (or is 0), and its magnitude is within 1 below the argument's |
| FrSkyHub.MakeFrac | UAVXArm32F4/src/frsky.c:121-123 | the fraction digits lie in 0 .. s-1 |
| FrSkyHub.MakeFracExamples | UAVXArm32F4/src/frsky.c:121-123 | 12.34 with scale 100 gives 34, and -5.6 with scale 10 gives 6, the digits without the sign |
| FrSkyHub.MakeFracOfInteger | UAVXArm32F4/src/frsky.c:153-156 | given a whole number, as `TxFrSkyPacketPair` gives it, `MakeFrac` returns 0 for every scale |
| FrSkyHub.PacketPair | UAVXArm32F4/src/frsky.c:153-156 | a BP/AP pair is the value's packet followed by an AP packet carrying 0 |
| FrSkyHub.TxFrSkyPacketPair | UAVXArm32F4/src/frsky.c:153-156 | writes the value packet and then the fraction packet |
| FrSkyHub.GPStoDDDMM | UAVXArm32F4/src/frsky.c:234-245 | bp / 100 is the whole degrees of abs(L); bp % 100 is the minutes, below 60; ap is below 10000; minutes*10000 + ap is the minute part scaled by 60, truncated to 1/10000 minute; bp fits 16 bits |
| FrSkyHub.GPStoDDDMMIgnoresSign | UAVXArm32F4/src/frsky.c:237 | L and -L convert to the same pair |
| FrSkyHub.GPStoDDDMMExample | UAVXArm32F4/src/frsky.c:234-245 | 473851230 and -473851230 both give bp = 4723, ap = 1073 |
| FrSkyHub.CoordSignOnlyInHemisphere | UAVXArm32F4/src/frsky.c:252-266 | negating both coordinates changes only the N/S and E/W packets: the sign travels in them alone |
| FrSkyHub.CoordPackets | UAVXArm32F4/src/frsky.c:252-266 | defines the six coordinate packets; `CoordSignOnlyInHemisphere` shows the sign reaches only the hemisphere packets, and `TxFrSkyGPSCoords` is proved to write exactly them |
| FrSkyHub.TxFrSkyGPSCoords | UAVXArm32F4/src/frsky.c:252-266 | writes latitude BP, AP and N/S, then longitude BP, AP and E/W |
| FrSkyHub.GPSStatDigits | UAVXArm32F4/src/frsky.c:247-250 | while satellites < 65 and fix < 10, the 16 bits on the wire give back the satellites, the fix and both validity flags digit by digit |
| FrSkyHub.GPSStatWord | UAVXArm32F4/src/frsky.c:247-250 | defines the status word satellites*1000 + fix*100 + the two flags; `GPSStatDigits` reads each part back from its 16 wire bits |
| FrSkyHub.HubCellFields | UAVXArm32F4/src/frsky.c:292-293 | for a cell index below 16, the payload's high byte is the voltage's low byte, bits 4..7 are the index and the low nibble is voltage bits 8..11 |
| FrSkyHub.HubCellPayload | UAVXArm32F4/src/frsky.c:292-293 | defines the shift-and-mask cell payload cut to 16 bits; `HubCellFields` pins each of its fields |
| FrSkyHub.NextHubCell | UAVXArm32F4/src/frsky.c:297-298 | the next index is 0 or one more than before, and it stays below a non-zero cell count |
| FrSkyHub.HubCellCycle | UAVXArm32F4/src/frsky.c:277-300 | from index c, successive calls send c, c+1, ..., count-1 and then return to 0 |
| FrSkyHub.HubTelemetry.TxFrSkyCellVoltages | UAVXArm32F4/src/frsky.c:277-300 | writes the packet for the current cell, then rotates `currentCell` by `NextHubCell`, keeping it below 256 |
| FrSkyHub.ClockFields | UAVXArm32F4/src/frsky.c:209-216 | minutes and seconds are each below 60, and minutes*60 + seconds is the 32-bit clock's whole seconds modulo one hour |
| FrSkyHub.TimePackets | UAVXArm32F4/src/frsky.c:209-216 | defines the minutes and seconds packets from `ClockFields`, whose ensures bound both below 60; `TxFrSkyTime` is proved to write exactly them |
| FrSkyHub.TxFrSkyTime | UAVXArm32F4/src/frsky.c:209-216 | writes the minutes packet (minutes << 8) and the seconds packet |
| FrSkyHub.WherePackets | UAVXArm32F4/src/frsky.c:218-225 | defines the four navigation packets, or none when the distance is out of range; `TxFrSkyWhere` is proved to write exactly them |
| FrSkyHub.TxFrSkyWhere | UAVXArm32F4/src/frsky.c:218-225 | writes the four navigation packets when the distance is in range, and nothing otherwise |
| FrSkyHub.AxisPackets | UAVXArm32F4/src/frsky.c:165-178 | defines one packet per axis with ids counting up; `AxisPacketsSnoc` gives the step the loop of `TxFrSkyAxes` takes, and that method is proved to write exactly them |
| FrSkyHub.TxFrSkyAxes | UAVXArm32F4/src/frsky.c:165-178 | the per-axis loop writes one packet per axis, ids counting up from the first |
| FrSkyHub.NextFrameCount | UAVXArm32F4/src/frsky.c:326-335 | `FrameCount` stays in 0..39 and is 0 exactly when the call finds 39; the forty-call cycle itself is proved by `FortyCallCycle` |
| FrSkyHub.KindOf | UAVXArm32F4/src/frsky.c:328-349 | defines which frame a call sends from the count it finds; `KindCounts`, `KindsFromAt` and `FortyCallCycle` count the kinds over a cycle, and `SendFrSkyTelemetry` is proved to send `Frame(KindOf(count))` |
| FrSkyHub.SlowFrame | UAVXArm32F4/src/frsky.c:328-335 | defines the slow frame's bytes (time, temperature 1, sentinel); `SendSlowFrame` is proved to write exactly them |
| FrSkyHub.MediumFrame | UAVXArm32F4/src/frsky.c:337-348 | defines the medium frame's bytes with the fix and origin gating; `SendMediumFrame` is proved to write exactly them |
| FrSkyHub.FastFrame | UAVXArm32F4/src/frsky.c:349-360 | defines the fast frame's bytes: power packets, rates, angles, sentinel; `SendFastFrame` is proved to write exactly them |
| FrSkyHub.PowerPackets | UAVXArm32F4/src/frsky.c:350-355 | defines the altitude, climb, battery, cell, current and charge packets that open the fast frame; `PowerPacketsSent` regroups the six writes and `SendPowerPackets` is proved to write exactly them |
| FrSkyHub.Frame | UAVXArm32F4/src/frsky.c:325-362 | defines the bytes of one call by frame kind; `SendFrSkyTelemetry` is proved to write `Frame(KindOf(count), ...)`, and `FortyCallCycle` counts the kinds over forty calls |
| FrSkyHub.KindCounts | UAVXArm32F4/src/frsky.c:328-349 | over calls that find counts c .. c+n-1, the numbers of slow, medium and fast frames are given by the multiples of 5 and of 40 in range |
| FrSkyHub.KindsFromAt | UAVXArm32F4/src/frsky.c:328-349 | call i of a run starting at count c chooses the frame kind of count c+i |
| FrSkyHub.FortyCallCycle | UAVXArm32F4/src/frsky.c:325-362 | 40 calls from 0 give one slow frame, 7 medium frames (at calls 5, 10, ..., 35) and 32 fast frames |
| FrSkyHub.HubTelemetry.constructor | UAVXArm32F4/src/frsky.c:326 | `FrameCount`, and the cell index `currentCell` of line 279, start at 0 |
| FrSkyHub.HubTelemetry.SendFrSkyTelemetry | UAVXArm32F4/src/frsky.c:325-362 | one scheduler call writes the frame its count selects, advances `FrameCount` and rotates the cell only in a fast frame |
| FrSkyHub.HubTelemetry.SendSlowFrame | UAVXArm32F4/src/frsky.c:328-335 | writes time, temperature 1 and the sentinel |
| FrSkyHub.HubTelemetry.SendMediumFrame | UAVXArm32F4/src/frsky.c:337-348 | writes the GPS block and its sentinel only with a valid fix (the navigation packets only with a valid origin), then the GPS status packet in every case |
| FrSkyHub.HubTelemetry.SendFastFrame | UAVXArm32F4/src/frsky.c:349-360 | writes baro, vario, voltage, one cell, current, mAh, the three rates, the two angles and the sentinel, and rotates the cell |
| FrSkyHub.HubTelemetry.SendPowerPackets | UAVXArm32F4/src/frsky.c:350-355 | the first six senders of the fast frame write their packets in order |
| FrSkySPort.Wire | UAVXArm32F4/src/frsky.c:511-516 | the last byte written for any input is neither 0x7E nor 0x7D |
| FrSkySPort.Escape | UAVXArm32F4/src/frsky.c:509-516 | no escaped byte contains 0x7E; 0x7D and 0x7E take two bytes and every other byte one |
| FrSkySPort.EscapeUndone | UAVXArm32F4/src/frsky.c:509-516 | an escaped byte is 0x7D followed by c XOR 0x20, which the receiver's XOR turns back into c; otherwise it is c |
| FrSkySPort.EscapeAll | UAVXArm32F4/src/frsky.c:509-517 | a run of escaped bytes: never 0x7E, at most twice as long; `EscapeAllRoundTrip` proves the receiver gets the run back |
| FrSkySPort.EscapeAllRoundTrip | UAVXArm32F4/src/frsky.c:509-516 | unescaping an escaped run gives back the run |
| FrSkySPort.Fold | UAVXArm32F4/src/frsky.c:518-524 | defines one end-around-carry checksum step; `FoldIn16Bits` proves it equal to the `uint16` arithmetic of the source and `FoldResidue` gives its meaning modulo 255 |
| FrSkySPort.FoldResidue | UAVXArm32F4/src/frsky.c:518-524 | a checksum step keeps the sum modulo 255 |
| FrSkySPort.CrcSnoc | UAVXArm32F4/src/frsky.c:518-524 | folding byte by byte, as each call does, equals folding the run |
| FrSkySPort.CrcFrom | UAVXArm32F4/src/frsky.c:509-540 | defines the running checksum over the post-XOR bytes; `CrcResidue` gives its meaning as a sum modulo 255 and `CrcSnoc` matches it to the per-byte folding of the sender |
| FrSkySPort.CrcResidue | UAVXArm32F4/src/frsky.c:527-539 | the checksum is the end-around-carry sum, modulo 255, of the values written after escaping |
| FrSkySPort.FoldIn16Bits | UAVXArm32F4/src/frsky.c:518-524 | the 16-bit `crc += c; crc += crc >> 8; crc &= 0xFF` is the fold step, and the result stays at most 0xFF |
| FrSkySPort.FrSkySPortSendByte | UAVXArm32F4/src/frsky.c:509-525 | writes the escaped byte; with a checksum pointer it folds in the post-XOR value, and without one it leaves the checksum alone |
| FrSkySPort.FrameBody | UAVXArm32F4/src/frsky.c:530-538 | 0x10, the id's two bytes and the value's four bytes, little-endian |
| FrSkySPort.SPortFrame | UAVXArm32F4/src/frsky.c:527-540 | a frame is 8 to 16 bytes and never contains 0x7E |
| FrSkySPort.FrameRoundTrip | UAVXArm32F4/src/frsky.c:527-540 | a receiver that checks 0x10 and the checksum accepts every frame and reads back the id modulo 2^16 and the value modulo 2^32 |
| FrSkySPort.FrameBytes | UAVXArm32F4/src/frsky.c:527-540 | a frame is the seven escaped bytes followed by the escaped 0xFF - crc, where crc folds the seven post-XOR values in order |
| FrSkySPort.TxFrSkySPort | UAVXArm32F4/src/frsky.c:527-540 | the eight sender calls write exactly the frame |
| FrSkySPort.SPortCellFields | UAVXArm32F4/src/frsky.c:676-683 | the CELLS payload fits 20 bits and holds the voltage mod 4096 in bits 8..19, the count mod 16 in bits 4..7 and the cell mod 16 in bits 0..3 |
| FrSkySPort.SPortCellPayload | UAVXArm32F4/src/frsky.c:676-683 | defines the CELLS payload built by the OR-and-shift sequence; `SPortCellFields` pins its voltage, count and index fields |
| FrSkySPort.CellsValue | UAVXArm32F4/src/frsky.c:674-686 | the CELLS value: the per-cell voltage `cellSum / (2 * count)` packed with the count and the cell index; `SPortCellFields` reads each field back and `SendCells` is proved to send it |
| FrSkySPort.NextSPortCell | UAVXArm32F4/src/frsky.c:690-691 | the next cell index is below the cell count |
| FrSkySPort.NextSPortCellSteps | UAVXArm32F4/src/frsky.c:690-691 | from an index in range, the `uint8` increment and the modulo give the next index, wrapping after the last |
| FrSkySPort.SPortCellCycle | UAVXArm32F4/src/frsky.c:673-691 | after n CELLS frames from a fresh start the index is n mod count, so it visits every cell in turn |
| FrSkySPort.LonPayload | UAVXArm32F4/src/frsky.c:728-732 | bit 31 is set, bit 30 is set exactly when west, and the rest is abs(east) * 6 / 100 rounded down |
| FrSkySPort.LatPayload | UAVXArm32F4/src/frsky.c:733-738 | the latitude word is 0, or 0x40000000 exactly when south, because its magnitude is never loaded |
| FrSkySPort.T1FlightDigit | UAVXArm32F4/src/frsky.c:776-781 | the flight-state and arming flags add up to a digit 0..6 |
| FrSkySPort.T1ControlDigit | UAVXArm32F4/src/frsky.c:782-787 | the control and bypass flags add up to a digit 1..6 |
| FrSkySPort.T1SensorDigit | UAVXArm32F4/src/frsky.c:788-793 | the three sensor flags add up to a digit 0..7 |
| FrSkySPort.T1NavDigit | UAVXArm32F4/src/frsky.c:794-797 | the navigation state gives a digit 0..2 |
| FrSkySPort.T1Digits | UAVXArm32F4/src/frsky.c:772-801 | T1 has five digits, fits a signed 16-bit display and reads back each flag group as its own decimal digit |
| FrSkySPort.T1Word | UAVXArm32F4/src/frsky.c:772-801 | defines T1 as 10000 plus the four flag digits; `T1Flags` proves the source's accumulation equal to it and `T1Digits` reads each digit back |
| FrSkySPort.T1Flags | UAVXArm32F4/src/frsky.c:772-797 | the flag-by-flag accumulation gives exactly that T1 word |
| FrSkySPort.T2Digits | UAVXArm32F4/src/frsky.c:804-809 | T2 carries the satellites in its low three digits and the GPS/origin validity in its thousands |
| FrSkySPort.T2Word | UAVXArm32F4/src/frsky.c:804-809 | defines T2 from the validity flags and the satellite count; `T2Digits` reads both parts back |
| FrSkySPort.Answers | UAVXArm32F4/src/frsky.c:647-827 | defines which table entries answer a poll under the snapshot's sensor flags; `AnswerRequest` and its three case methods are proved to clear the request exactly when it holds |
| FrSkySPort.Value | UAVXArm32F4/src/frsky.c:647-827 | defines the value each entry sends; `ReplyDecodes` shows it is what a receiver reads back for every id but FUEL, and `AnswerRequest` is proved to send it |
| FrSkySPort.IdTable | UAVXArm32F4/src/frsky.c:460-476 | the ids in poll order, with LATLONG twice and the 0 terminator; `NextSlot`, `FirstAnswering` and `Service` search it, and `ServiceWithAllSensors` shows each poll moves one entry along |
| FrSkySPort.NextSlot | UAVXArm32F4/src/frsky.c:638-642 | the entry tried is never the 0 terminator: it is the counter's entry, or entry 0 when the counter is at the terminator |
| FrSkySPort.SkipShortensSearch | UAVXArm32F4/src/frsky.c:460-475 | a table entry that does not answer is followed by another real entry, one step closer to an entry that always answers |
| FrSkySPort.FirstAnswering | UAVXArm32F4/src/frsky.c:629-832 | the search from a real entry stops at an entry that answers, before the terminator |
| FrSkySPort.FirstAnsweringIsFirst | UAVXArm32F4/src/frsky.c:629-832 | every entry the search passes over does not answer |
| FrSkySPort.Service | UAVXArm32F4/src/frsky.c:629-832 | after one poll the counter is in 1..17, just past the answering entry; the cell index moves on only after CELLS; the bytes written are that entry's reply |
| FrSkySPort.Reply | UAVXArm32F4/src/frsky.c:710-718 | an answering entry writes nothing exactly when it is FUEL |
| FrSkySPort.ReplyDecodes | UAVXArm32F4/src/frsky.c:647-827 | every reply but FUEL's is one frame that a receiver accepts, carrying the entry's id and value |
| FrSkySPort.SkipKeepsService | UAVXArm32F4/src/frsky.c:636-643 | a silent entry leaves the poll's outcome unchanged from the next entry on and strictly shortens the remaining search |
| FrSkySPort.SameFirstSameService | UAVXArm32F4/src/frsky.c:636-643 | two counters whose searches stop at the same entry give the same outcome |
| FrSkySPort.AnswerEndsService | UAVXArm32F4/src/frsky.c:636-643 | when the first entry tried answers, the poll ends with the counter just past it |
| FrSkySPort.AllSensorsAnswer | UAVXArm32F4/src/frsky.c:647-827 | with a GPS fix and an active barometer every table entry answers |
| FrSkySPort.ServiceWithAllSensors | UAVXArm32F4/src/frsky.c:636-643 | with all sensors each poll moves exactly one entry along the table, wrapping after the last |
| FrSkySPort.LatLongAlternation | UAVXArm32F4/src/frsky.c:722-741 | the first LATLONG entry (even counter) sends the latitude word and the second (odd counter) the longitude word |
| FrSkySPort.SPortTelemetry.constructor | UAVXArm32F4/src/frsky.c:484-490 | the link variables start uninitialised, disabled, without a request and with counters at 0 |
| FrSkySPort.SPortTelemetry.FrSkySPortDataReceive | UAVXArm32F4/src/frsky.c:492-507 | any byte after 0x7E sets the state to working; a request and its time are recorded only for 0x1B with no input waiting; `lastChar` always takes the byte |
| FrSkySPort.SPortTelemetry.CanSendSPortPortTelemetry | UAVXArm32F4/src/frsky.c:584-588 | true exactly when FrSky telemetry is selected and the state is initialised or working |
| FrSkySPort.SPortTelemetry.IsSPortPortTimedOut | UAVXArm32F4/src/frsky.c:590-592 | true exactly in the timed-out state |
| FrSkySPort.SPortTelemetry.ConfigureSPortPortTelemetryPort | UAVXArm32F4/src/frsky.c:560-582 | with FrSky selected the link becomes initialised and enabled with its request time at now; otherwise nothing changes |
| FrSkySPort.SPortTelemetry.CheckSPortPortTelemetryState | UAVXArm32F4/src/frsky.c:594-606 | reports a change exactly when telemetry was disabled, and then configures the port |
| FrSkySPort.SPortTelemetry.SendFrSkyTelemetry | UAVXArm32F4/src/frsky.c:608-837 | the forced-request loop ends with the request cleared, having written exactly the outcome of `Service` and updated the counter and cell index to match it |
| FrSkySPort.SPortTelemetry.TryNextEntry | UAVXArm32F4/src/frsky.c:636-832 | one pass of the loop either completes the poll as `Service` says, or keeps its outcome and shortens the remaining search |
| FrSkySPort.SPortTelemetry.AnswerRequest | UAVXArm32F4/src/frsky.c:647-702 | the `switch` clears the request exactly when the entry answers, writes its reply, and rotates the cell only for CELLS |
| FrSkySPort.SPortTelemetry.SendCells | UAVXArm32F4/src/frsky.c:661-692 | writes the CELLS frame for the current cell and moves the index on modulo the cell count |
| FrSkySPort.SPortTelemetry.AnswerFlight | UAVXArm32F4/src/frsky.c:704-750 | ALTITUDE and VARIO need the barometer and LATLONG a GPS fix; FUEL clears the request and writes nothing |
| FrSkySPort.SPortTelemetry.AnswerAttitude | UAVXArm32F4/src/frsky.c:751-768 | HEADING and ACCX/Y/Z always send their frames and clear the request |
| FrSkySPort.SPortTelemetry.AnswerStatus | UAVXArm32F4/src/frsky.c:769-830 | T1 and A4 always answer, T2 needs a GPS and GPS_ALT a fix; an unknown id writes nothing and keeps the request |
| FrSkyLegacy.RawCrc | UAVXArm32F4/src/frsky.c:878-888 | defines the legacy checksum as a fold over raw bytes; `PackageSent` proves `SendByte`'s running fold equal to it and `RawCrcResidue` gives its meaning modulo 255 |
| FrSkyLegacy.RawCrcSnoc | UAVXArm32F4/src/frsky.c:878-888 | folding byte by byte equals folding the run |
| FrSkyLegacy.RawCrcResidue | UAVXArm32F4/src/frsky.c:878-888 | the legacy checksum is the sum of the raw bytes modulo 255, with end-around carry |
| FrSkyLegacy.Package | UAVXArm32F4/src/frsky.c:895-911 | a package is eight bytes starting with 0x10 |
| FrSkyLegacy.PackageBody | UAVXArm32F4/src/frsky.c:895-911 | the seven bytes 0x10, id and value before the checksum; `PackageRoundTrip` reads the id and value back and `PlainPackagesAgree` compares them with the CleanFlight frame |
| FrSkyLegacy.PackageSent | UAVXArm32F4/src/frsky.c:895-911 | the seven sent bytes, each folded in as it goes, followed by 0xFF - crc make up the package |
| FrSkyLegacy.PackageRoundTrip | UAVXArm32F4/src/frsky.c:895-911 | a receiver accepts every package sent after a checksum reset and reads back the id and the low 32 bits of the value |
| FrSkyLegacy.PlainPackagesAgree | UAVXArm32F4/src/frsky.c:878-911 | when no byte is 0x7D or 0x7E, the legacy package equals the CleanFlight frame for the same id and value: the double carry fold over raw bytes is the single fold |
| FrSkyLegacy.StartByteInsidePackage | UAVXArm32F4/src/frsky.c:895-906 | without escaping, a value byte 0x7E reaches the wire inside a package, which the CleanFlight frame never allows |
| FrSkyLegacy.ChecksumAfterXor | UAVXArm32F4/src/frsky.c:509-524 | for every id and value, the checksum over the post-XOR wire values equals the one over the unescaped bytes exactly when no id or value byte is 0x7D or 0x7E |
| FrSkyLegacy.LegacyLon | UAVXArm32F4/src/frsky.c:938-948 | bit 31 is set, bit 30 is set exactly when west, and the rest is abs(east) / 100 * 6 |
| FrSkyLegacy.LegacyLat | UAVXArm32F4/src/frsky.c:949-958 | bit 31 is clear, bit 30 is set exactly when south, and the rest is abs(north) / 100 * 6 |
| FrSkyLegacy.LegacyMagnitude | UAVXArm32F4/src/frsky.c:941 | the magnitude abs(x) / 100 * 6 is within 6 below the exact abs(x) * 6 / 100 |
| FrSkyLegacy.LegacyCells | UAVXArm32F4/src/frsky.c:966-989 | the 12-bit voltage sits at bits 20 and 8 and the pair's offset in the low byte, within 32 bits |
| FrSkyLegacy.SlotIds | UAVXArm32F4/src/frsky.c:928-1025 | the id each counter value sends, 0 for the cases with no package; `ResponseDecodes` shows the package decodes to that id |
| FrSkyLegacy.Sends | UAVXArm32F4/src/frsky.c:923-1020 | defines which counter slots send a package under the snapshot (fix, cell count); `ResponseDecodes` shows a slot writes nothing exactly when it fails |
| FrSkyLegacy.SlotValue | UAVXArm32F4/src/frsky.c:923-1020 | defines the value each slot sends; `ResponseDecodes` shows it is what a receiver reads back |
| FrSkyLegacy.Response | UAVXArm32F4/src/frsky.c:923-1020 | defines the bytes one poll writes; `Respond` and its three case methods are proved to write exactly them, and `ResponseDecodes` characterises them |
| FrSkyLegacy.ResponseDecodes | UAVXArm32F4/src/frsky.c:923-1020 | a poll writes nothing exactly when its slot does not send; otherwise it writes one package that decodes to the slot's id and value |
| FrSkyLegacy.NextCount | UAVXArm32F4/src/frsky.c:1021-1023 | the counter steps by one modulo 20 and stays in 0..19 |
| FrSkyLegacy.Polled | UAVXArm32F4/src/frsky.c:920-921 | a poll is one of the four sensor ids right after 0x7E; `NoPollNoAnswer` shows input without one writes nothing and `RunCountsPolls` counts them |
| FrSkyLegacy.Receive | UAVXArm32F4/src/frsky.c:918-1025 | after a byte the counter stays in range and `lastRx` is that byte |
| FrSkyLegacy.Run | UAVXArm32F4/src/frsky.c:913-1027 | the link after a run of input, the counter within 0..19; `RunCountsPolls` shows the counter moves by the number of polls modulo 20, and `FrSkySPortProcess` is proved to end in it |
| FrSkyLegacy.Responses | UAVXArm32F4/src/frsky.c:913-1027 | the bytes answered over a run of input; `NoPollNoAnswer` shows input without a poll answers nothing, and `FrSkySPortProcess` is proved to write exactly them |
| FrSkyLegacy.RunCountsPolls | UAVXArm32F4/src/frsky.c:918-1026 | over any input the counter advances by the number of polls modulo 20, and `lastRx` ends as the last byte |
| FrSkyLegacy.NoPollNoAnswer | UAVXArm32F4/src/frsky.c:918-1026 | input without a poll writes nothing and leaves the counter unchanged |
| FrSkyLegacy.LegacySPort.constructor | UAVXArm32F4/src/frsky.c:861-863 | `crc`, `lastRx` and the counter start at 0 |
| FrSkyLegacy.LegacySPort.SendByte | UAVXArm32F4/src/frsky.c:878-888 | writes the byte unescaped and folds it into the checksum, which stays at most 0xFF |
| FrSkyLegacy.LegacySPort.SendCrc | UAVXArm32F4/src/frsky.c:890-893 | writes 0xFF - crc and resets the checksum to 0 |
| FrSkyLegacy.LegacySPort.SendPackage | UAVXArm32F4/src/frsky.c:895-911 | writes exactly the package for the current checksum and leaves the checksum reset |
| FrSkyLegacy.LegacySPort.Respond | UAVXArm32F4/src/frsky.c:923-937 | the `switch` writes exactly the counter's response and leaves the checksum reset; cases 0 to 3 are decided here, the rest in the three methods below |
| FrSkyLegacy.LegacySPort.RespondPosition | UAVXArm32F4/src/frsky.c:938-962 | cases 4 to 6: longitude and latitude only with a 3D fix, heading always |
| FrSkyLegacy.LegacySPort.RespondCells | UAVXArm32F4/src/frsky.c:963-989 | cases 7 to 10: nothing, then the three cell pairs, the later two only with more than 2 and more than 4 cells |
| FrSkyLegacy.LegacySPort.RespondHigh | UAVXArm32F4/src/frsky.c:990-1018 | cases 11 to 19: the accelerometers, VFAS, vario and GPS altitude, nothing for 15, 16 and 19 |
| FrSkyLegacy.LegacySPort.FrSkySPortProcess | UAVXArm32F4/src/frsky.c:913-1027 | reading the available bytes leaves `lastRx` and the counter as `Run` gives them and writes exactly the responses to the polls |

## Left out

- Floating-point derivation of the values sent is not modelled. This
  covers `RadiansToDegrees`, `Acc * GRAVITY`, `BatteryVolts * 500`,
  `ROC * 100`, `gspeed * 3.6` and the float to `int16`/`uint32`
  conversions at the call sites. Each snapshot field is the integer
  already computed, and only its low 16 or 32 bits reach the wire.
- FrSkyHub.MakeFrac and FrSkyHub.Trunc work on exact reals, not on
  `real32`. Float rounding of `v * s` is not modelled.
- The serial port is an output sequence (`TxPort.sent`). `RxChar` and
  `serialAvailable` become the legacy input sequence and the
  `inputPending` flag. `mSClock`/`uSClock` become parameters or snapshot
  fields.
- SmartPort `SendFrSkyTelemetry` keeps two `if (false)` branches, lines
  611 and 631: the link timeout and the service-time budget. They are dead
  code and are not modelled. Also not modelled is the unit mismatch they
  would bring: `FrSkySPortLastRequestTime` is read from the millisecond
  clock (lines 493 and 580) but compared with the microsecond clock (line
  619).
- The request flag forced to true at line 627 is modelled as written. Every
  call therefore answers one table entry, whether or not a poll arrived.
- The port stubs are not modelled: their bodies are commented out.
  - `initSPortPortTelemetry` and `freeSPortPortTelemetryPort` (lines
    542-558). The free path of `checkSPortPortTelemetryState` is never
    taken, because the wanted state is the constant true.
  - The `openSerialPort` block (lines 563-575).
  - `FrSkySPort_Init` (lines 869-876).
- The pointer-cast byte extraction (lines 531-538, 899-906) is modelled as
  an explicit little-endian split (`LE16`, `LE32`). Memory aliasing is not
  modelled.
- FrSkyHub.GPStoDDDMM requires L to be above INT32_MIN. `Abs` of that value
  overflows in C, so the function excludes it.
- FrSkyLegacy.LegacyLon and FrSkyLegacy.LegacyLat use the true magnitude
  for INT32_MIN. There C's `abs` overflows, and the division then works on
  a negative number.
- FrSkySPort.SPortSnapshot's cell count is at least 1, by its type
  `CellCount`. The CELLS and A4 values divide by `BatteryCellCount`, and
  the index is reduced modulo it, which is undefined for 0. The Hub
  encoder handles a count of 0 (its index stays 0), and so does the model.
- The legacy encoder sends `FSSP_ID_*` values. Those are defined only in the
  CleanFlight block of the file, and the model uses them. The legacy
  globals `cell_count`, `latlong_flag` and `first` are never read, so they
  are left out. `latlong` is a global too (line 866), but cases 4 and 5
assign it just before sending it (lines 941-956), so the model computes the
value in place.
- The `else if (F.HaveGPS)` branch of the T2 case (lines 810-813) repeats
  the condition that just failed. It can never run and is not modelled.
- The `switch` of the SmartPort sender and the `switch` of
  `FrSkySPort_Process` are each split into several methods. The Hub fast
  frame is split into its power part and the rest. Each split is only to
  keep the proofs small and does not change the order of any writes.
- Global flight state (`F.*`, `GPS.*`, `Battery*`, `State`, `NavState`,
  `Acc`, `A`) is read-only input. Compile-time variant selection is not
  modelled: each variant is a module.
- The Hub senders for acceleration, fuel, temperature 2 and compass heading
  are not modelled. The scheduler never calls them (they are commented out
  at lines 331, 332, 348 and 356).

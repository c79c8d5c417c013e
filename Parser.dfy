/**
  The integer fields of the simulator's telemetry packet, read at fixed
  offsets with `struct.unpack` in little-endian order, and the steps of
  `TelemetryParser.parse` that feed the fuel monitor.  Floating-point
  fields are decoded by a function the caller supplies.
 */
module Parser {
  import opened Wrappers
  import opened Bytes
  import opened FuelMonitoring

  /** The `struct` format characters the integer fields use. */
  datatype Format = I32 | I16 | U16 | U8

  function Size(f: Format): nat
  {
    match f
    case I32 => 4
    case I16 => 2
    case U16 => 2
    case U8 => 1
  }

  predicate IsSigned(f: Format) { f == I32 || f == I16 }

  /** The number of bit patterns of a format: 256 to the power of its size. */
  function Span(f: Format): (n: nat)
    ensures n == Pow256(Size(f))
  {
    match f
    case I32 => assert Pow256(4) == 0x1_0000_0000; 0x1_0000_0000
    case I16 => assert Pow256(2) == 0x1_0000; 0x1_0000
    case U16 => assert Pow256(2) == 0x1_0000; 0x1_0000
    case U8 => assert Pow256(1) == 0x100; 0x100
  }

  /** The values a format can hold. */
  predicate InRange(f: Format, v: int)
  {
    if IsSigned(f) then -(Span(f) / 2) <= v < Span(f) / 2 else 0 <= v < Span(f)
  }

  /** Why `parse` raises: the packet is not a byte string, or a field's slice is not full. */
  datatype ParseError = NotBytes | ShortBuffer(format: Format, got: nat)

  /** Two's complement reading of an unsigned value. */
  function ToSigned(f: Format, u: nat): int
    requires u < Span(f)
  {
    if IsSigned(f) && u >= Span(f) / 2 then u - Span(f) else u
  }

  /** `struct.unpack(f, b)[0]`: only a buffer of exactly the format's size decodes. */
  function Unpack(f: Format, b: seq<byte>): (r: Result<int, ParseError>)
    ensures r.Ok? <==> |b| == Size(f)
    ensures r.Ok? ==> InRange(f, r.value)
    ensures r.Ok? && !IsSigned(f) ==> r.value == LeValue(b)
    ensures r.Err? ==> r.error == ShortBuffer(f, |b|)
  {
    if |b| != Size(f) then Err(ShortBuffer(f, |b|)) else Ok(ToSigned(f, LeValue(b)))
  }

  /** `struct.pack(f, v)` for a value the format can hold. */
  function Pack(f: Format, v: int): (b: seq<byte>)
    requires InRange(f, v)
    ensures |b| == Size(f)
  {
    LeBytes(if v < 0 then v + Span(f) else v, Size(f))
  }

  /** Every value a format holds survives packing and unpacking. */
  lemma UnpackPack(f: Format, v: int)
    requires InRange(f, v)
    ensures Unpack(f, Pack(f, v)) == Ok(v)
  {
    LeValueOfBytes(if v < 0 then v + Span(f) else v, Size(f));
  }

  /** Every buffer of the format's size survives unpacking and packing. */
  lemma PackUnpack(f: Format, b: seq<byte>)
    requires |b| == Size(f)
    ensures Pack(f, Unpack(f, b).value) == b
  {
    LeBytesOfValue(b);
  }

  /** Packing a decoded value gives back the buffer it was decoded from. */
  lemma PackOfUnpacked(f: Format, b: seq<byte>)
    ensures Unpack(f, b).Ok? ==> Pack(f, Unpack(f, b).value) == b
  {
    if |b| == Size(f) {
      PackUnpack(f, b);
    }
  }

  /** `struct.unpack(f, data[offset:offset + size])[0]`. */
  function Field(data: seq<byte>, f: Format, offset: nat): (r: Result<int, ParseError>)
    ensures r.Ok? <==> offset + Size(f) <= |data|
    ensures r.Ok? ==> InRange(f, r.value) && Pack(f, r.value) == data[offset..offset + Size(f)]
  {
    var b := Slice(data, offset, offset + Size(f));
    PackOfUnpacked(f, b);
    Unpack(f, b)
  }

  /** A field whose slice is known to be full. */
  function FieldValue(data: seq<byte>, f: Format, offset: nat): (v: int)
    requires offset + Size(f) <= |data|
    ensures InRange(f, v)
  {
    Field(data, f, offset).value
  }

  /** The value of a full field is what the bytes of its slice pack to. */
  lemma FieldValueBytes(data: seq<byte>, f: Format, offset: nat)
    requires offset + Size(f) <= |data|
    ensures Pack(f, FieldValue(data, f, offset)) == data[offset..offset + Size(f)]
  {
  }

  /** A field written with `struct.pack_into` reads back as the value written. */
  lemma FieldOfPacked(buf: seq<byte>, f: Format, offset: nat, v: int)
    requires InRange(f, v) && offset + Size(f) <= |buf|
    ensures Field(PackInto(buf, offset, Pack(f, v)), f, offset) == Ok(v)
  {
    UnpackPack(f, v);
  }

  /** Writing a field leaves every field that does not overlap it as it was. */
  lemma FieldOfPackedElsewhere(buf: seq<byte>, f: Format, offset: nat, bytes: seq<byte>, g: Format, at: nat)
    requires offset + |bytes| <= |buf|
    requires at + Size(g) <= offset || offset + |bytes| <= at
    ensures Field(PackInto(buf, offset, bytes), g, at) == Field(buf, g, at)
  {
    var after := PackInto(buf, offset, bytes);
    if at + Size(g) <= |buf| {
      forall i | at <= i < at + Size(g)
        ensures after[i] == buf[i]
      {
      }
      assert after[at..at + Size(g)] == buf[at..at + Size(g)];
    } else {
      assert |Slice(after, at, at + Size(g))| == |Slice(buf, at, at + Size(g))|;
    }
  }

  // ---------------------------------------------------------------- packet layout

  const PacketIdOffset := 0x70
  const CurrentLapOffset := 0x74
  const TotalLapsOffset := 0x76
  const BestLapTimeOffset := 0x78
  const LastLapTimeOffset := 0x7C
  const CurrentPositionOffset := 0x84
  const TotalPositionsOffset := 0x86
  const TopSpeedOffset := 0x8C
  const FlagsOffset := 0x8E
  const GearOffset := 0x90
  const ThrottleOffset := 0x91
  const BrakeOffset := 0x92
  const CarIdOffset := 0x124
  /** The car id is the last field: a packet must reach this far. */
  const PacketLength := 0x128

  /** `max(v, 0)`: a lap time of -1 ("no time") becomes 0. */
  function ClampLapTime(v: int): (r: int)
    ensures r >= 0
    ensures v >= 0 ==> r == v
    ensures v < 0 ==> r == 0
  {
    if v > 0 then v else 0
  }

  /** The low nibble of the gear byte (`b & 0b00001111`): the current gear. */
  function CurrentGear(b: byte): (g: int)
    ensures 0 <= g < 16
  {
    b % 16
  }

  /** The high nibble of the gear byte (`b >> 4`): the suggested gear. */
  function SuggestedGear(b: byte): (g: int)
    ensures 0 <= g < 16
  {
    b / 16
  }

  /** The two nibbles recombine to the byte: `(suggested << 4) | gear`, and determine it. */
  lemma GearNibblesSplitByte(b: byte, c: byte)
    ensures SuggestedGear(b) * 16 + CurrentGear(b) == b
    ensures CurrentGear(b) == CurrentGear(c) && SuggestedGear(b) == SuggestedGear(c) ==> b == c
  {
  }

  /** The test packet's gear byte 0x21: gear 1, suggested gear 2. */
  lemma GearByteExample()
    ensures CurrentGear(0x21) == 1 && SuggestedGear(0x21) == 2
  {
  }

  /** The integer-valued fields of a packet. */
  datatype IntFields = IntFields(
    packetId: int,
    bestLapTime: int,
    lastLapTime: int,
    currentLap: int,
    totalLaps: int,
    currentPosition: int,
    totalPositions: int,
    transmissionTopSpeed: int,
    currentGear: int,
    suggestedGear: int,
    flags: int,
    throttle: int,
    brake: int,
    carId: int)

  /** The integer fields of a packet long enough to hold them all. */
  function FieldsOf(d: seq<byte>): (r: IntFields)
    requires |d| >= PacketLength
    ensures 0 <= r.throttle < 256 && 0 <= r.brake < 256 && 0 <= r.flags < 0x1_0000
    ensures r.bestLapTime >= 0 && r.lastLapTime >= 0
  {
    var gear := FieldValue(d, U8, GearOffset);
    IntFields(
      packetId := FieldValue(d, I32, PacketIdOffset),
      bestLapTime := ClampLapTime(FieldValue(d, I32, BestLapTimeOffset)),
      lastLapTime := ClampLapTime(FieldValue(d, I32, LastLapTimeOffset)),
      currentLap := FieldValue(d, I16, CurrentLapOffset),
      totalLaps := FieldValue(d, I16, TotalLapsOffset),
      currentPosition := FieldValue(d, I16, CurrentPositionOffset),
      totalPositions := FieldValue(d, I16, TotalPositionsOffset),
      transmissionTopSpeed := FieldValue(d, I16, TopSpeedOffset),
      currentGear := CurrentGear(gear),
      suggestedGear := SuggestedGear(gear),
      flags := FieldValue(d, U16, FlagsOffset),
      throttle := FieldValue(d, U8, ThrottleOffset),
      brake := FieldValue(d, U8, BrakeOffset),
      carId := FieldValue(d, I32, CarIdOffset))
  }

  /**
    The integer fields as `parse` reads them: the car id first, whose slice
    is the last one, then the others, which are then certain to be full.
   */
  function DecodeIntFields(data: Option<seq<byte>>): (r: Result<IntFields, ParseError>)
    ensures r.Ok? <==> data.Some? && |data.value| >= PacketLength
    ensures data.None? ==> r == Err(NotBytes)
    ensures r.Ok? ==> r.value == FieldsOf(data.value)
    ensures data.Some? && r.Err? ==> r.error == ShortBuffer(I32, |Slice(data.value, CarIdOffset, PacketLength)|)
  {
    if data.None? then Err(NotBytes)
    else
      var carId := Field(data.value, I32, CarIdOffset);
      if carId.Err? then Err(carId.error) else Ok(FieldsOf(data.value))
  }

  /** What a decoded field says about the packet bytes it came from. */
  lemma DecodedFieldsAreTheBytes(d: seq<byte>)
    requires |d| >= PacketLength
    ensures var r := DecodeIntFields(Some(d)).value;
      Pack(I32, r.packetId) == d[PacketIdOffset..PacketIdOffset + 4] &&
      Pack(I16, r.currentLap) == d[CurrentLapOffset..CurrentLapOffset + 2] &&
      Pack(I16, r.totalLaps) == d[TotalLapsOffset..TotalLapsOffset + 2] &&
      Pack(I16, r.currentPosition) == d[CurrentPositionOffset..CurrentPositionOffset + 2] &&
      Pack(I16, r.totalPositions) == d[TotalPositionsOffset..TotalPositionsOffset + 2] &&
      Pack(I16, r.transmissionTopSpeed) == d[TopSpeedOffset..TopSpeedOffset + 2] &&
      Pack(I32, r.carId) == d[CarIdOffset..CarIdOffset + 4] &&
      Pack(U16, r.flags) == d[FlagsOffset..FlagsOffset + 2] &&
      r.bestLapTime == ClampLapTime(Unpack(I32, d[BestLapTimeOffset..BestLapTimeOffset + 4]).value) &&
      r.lastLapTime == ClampLapTime(Unpack(I32, d[LastLapTimeOffset..LastLapTimeOffset + 4]).value) &&
      r.throttle == d[ThrottleOffset] && r.brake == d[BrakeOffset] &&
      r.suggestedGear * 16 + r.currentGear == d[GearOffset]
  {
    var r := FieldsOf(d);
    var gear := FieldValue(d, U8, GearOffset);
    assert gear == d[GearOffset] by {
      assert LeValue(d[GearOffset..GearOffset + 1]) == d[GearOffset];
    }
    assert r.throttle == d[ThrottleOffset] by {
      assert LeValue(d[ThrottleOffset..ThrottleOffset + 1]) == d[ThrottleOffset];
    }
    assert r.brake == d[BrakeOffset] by {
      assert LeValue(d[BrakeOffset..BrakeOffset + 1]) == d[BrakeOffset];
    }
    GearNibblesSplitByte(gear, gear);
  }

  /** The test packet: packet id 12345, gear byte 0x21, throttle 128, brake 0 in an otherwise arbitrary buffer. */
  function TestPacket(buf: seq<byte>): (r: seq<byte>)
    requires |buf| == PacketLength
    ensures |r| == PacketLength
  {
    var p1 := PackInto(buf, PacketIdOffset, Pack(I32, 12345));
    var p2 := PackInto(p1, GearOffset, Pack(U8, 0x21));
    var p3 := PackInto(p2, ThrottleOffset, Pack(U8, 128));
    PackInto(p3, BrakeOffset, Pack(U8, 0))
  }

  /** The test packet decodes to the values written into it. */
  lemma TestPacketDecodes(buf: seq<byte>)
    requires |buf| == PacketLength
    ensures var r := DecodeIntFields(Some(TestPacket(buf)));
      r.Ok? && r.value.packetId == 12345 && r.value.currentGear == 1 && r.value.suggestedGear == 2 &&
      r.value.throttle == 128 && r.value.brake == 0
  {
    var p1 := PackInto(buf, PacketIdOffset, Pack(I32, 12345));
    var p2 := PackInto(p1, GearOffset, Pack(U8, 0x21));
    var p3 := PackInto(p2, ThrottleOffset, Pack(U8, 128));
    var p4 := PackInto(p3, BrakeOffset, Pack(U8, 0));
    FieldOfPacked(buf, I32, PacketIdOffset, 12345);
    FieldOfPackedElsewhere(p1, U8, GearOffset, Pack(U8, 0x21), I32, PacketIdOffset);
    FieldOfPackedElsewhere(p2, U8, ThrottleOffset, Pack(U8, 128), I32, PacketIdOffset);
    FieldOfPackedElsewhere(p3, U8, BrakeOffset, Pack(U8, 0), I32, PacketIdOffset);
    FieldOfPacked(p1, U8, GearOffset, 0x21);
    FieldOfPackedElsewhere(p2, U8, ThrottleOffset, Pack(U8, 128), U8, GearOffset);
    FieldOfPackedElsewhere(p3, U8, BrakeOffset, Pack(U8, 0), U8, GearOffset);
    FieldOfPacked(p2, U8, ThrottleOffset, 128);
    FieldOfPackedElsewhere(p3, U8, BrakeOffset, Pack(U8, 0), U8, ThrottleOffset);
    FieldOfPacked(p3, U8, BrakeOffset, 0);
    GearByteExample();
  }

  /** Empty, ten-byte and missing packets are refused. */
  lemma ShortPacketsRaise(d: seq<byte>)
    requires |d| == 0 || |d| == 10
    ensures DecodeIntFields(Some(d)).Err? && DecodeIntFields(None).Err?
  {
  }

  // ---------------------------------------------------------------- the parser object

  /** The fuel figures `parse` computes through the fuel monitor. */
  datatype FuelReport = FuelReport(
    currentFuel: real,
    fuelCapacity: real,
    currentLap: int,
    fuelPercentage: real,
    fuelConsumptionLap: real)

  class TelemetryParser {
    const fuelMonitor: FuelMonitor
    var previousLap: int

    constructor ()
      ensures fresh(fuelMonitor) && fuelMonitor.Valid()
      ensures fuelMonitor.State() == MonitorState([], DefaultMaxHistory, None, 0.0) && previousLap == 0
    {
      fuelMonitor := new FuelMonitor();
      previousLap := 0;
    }

    /**
      The steps of `parse` before the packet record is built: the car id is
      read first (so a short or missing packet raises before anything
      changes), then the fuel level, capacity and lap feed the monitor, and
      the percentage and the lap's consumption are read from it.
      `floatAt` decodes a four-byte IEEE-754 single.
     */
    method ReadFuel(data: Option<seq<byte>>, floatAt: seq<byte> -> real) returns (r: Result<FuelReport, ParseError>)
      requires fuelMonitor.Valid()
      modifies fuelMonitor
      ensures fuelMonitor.Valid()
      ensures r.Ok? <==> data.Some? && |data.value| >= PacketLength
      ensures r.Err? ==> fuelMonitor.State() == old(fuelMonitor.State())
      ensures r.Ok? ==>
        var d := data.value;
        r.value.currentFuel == floatAt(d[0x44..0x48]) &&
        r.value.fuelCapacity == floatAt(d[0x48..0x4C]) &&
        r.value.currentLap == DecodeIntFields(data).value.currentLap &&
        fuelMonitor.State() == Reading(old(fuelMonitor.State()), r.value.currentFuel) &&
        r.value.fuelPercentage == fuelMonitor.FuelPercentage(r.value.currentFuel, r.value.fuelCapacity) &&
        r.value.fuelConsumptionLap == fuelMonitor.CurrentLapConsumption()
    {
      if data.None? {
        return Err(NotBytes);
      }
      var d := data.value;
      var carId := Field(d, I32, CarIdOffset);
      if carId.Err? {
        return Err(carId.error);
      }
      var currentFuel := floatAt(Slice(d, 0x44, 0x48));
      var fuelCapacity := floatAt(Slice(d, 0x48, 0x4C));
      var currentLap := FieldValue(d, I16, CurrentLapOffset);
      fuelMonitor.UpdateFuelReading(currentFuel, currentLap);
      var fuelPercentage := fuelMonitor.FuelPercentage(currentFuel, fuelCapacity);
      var currentLapConsumption := fuelMonitor.CurrentLapConsumption();
      return Ok(FuelReport(currentFuel, fuelCapacity, currentLap, fuelPercentage, currentLapConsumption));
    }
  }
}

/**
  The telemetry reader's packet handling: the Salsa20 nonce derived from
  the packet, the magic-number check on the decrypted bytes, and the
  heartbeat packet counter of the receive loop.  The Salsa20 cipher is a
  function the caller supplies; the socket is replaced by a sequence of
  receive events.
 */
module Reader {
  import opened Bytes

  /** `Salsa20_xor(message, nonce, key)`. */
  type Cipher = (seq<byte>, seq<byte>, seq<byte>) -> seq<byte>

  const IvStart := 0x40
  const IvLength := 0x4
  const IvMask := 0xDEADBEAF
  const Magic := 0x47375330
  const HeartbeatInterval := 100

  /** The bytes of "Simulator Interface Packet GT7 ver 0.0". */
  const Key: seq<byte> := [
    0x53, 0x69, 0x6D, 0x75, 0x6C, 0x61, 0x74, 0x6F, 0x72, 0x20,
    0x49, 0x6E, 0x74, 0x65, 0x72, 0x66, 0x61, 0x63, 0x65, 0x20,
    0x50, 0x61, 0x63, 0x6B, 0x65, 0x74, 0x20, 0x47, 0x54, 0x37,
    0x20, 0x76, 0x65, 0x72, 0x20, 0x30, 0x2E, 0x30]

  /** `KEY[0:32]`: the first 32 bytes of the key string. */
  function CipherKey(): (k: seq<byte>)
    ensures |k| == 32 && k == Key[..32]
  {
    Key[0..32]
  }

  /** `iv1 ^ 0xDEADBEAF` on a 32-bit value. */
  function MaskIv(v: nat): (r: nat)
    requires v < Pow256(4)
    ensures r < Pow256(4)
  {
    Pow2Of32();
    XorBound(v, IvMask, 32);
    Xor(v, IvMask)
  }

  /** Masking twice gives the value back. */
  lemma MaskIvTwice(v: nat)
    requires v < Pow256(4)
    ensures MaskIv(MaskIv(v)) == v
  {
    XorTwice(v, IvMask);
  }

  /** `iv1`: the little-endian value of bytes 0x40 to 0x44, fewer if the packet is shorter. */
  function Iv1(data: seq<byte>): (v: nat)
    ensures v < Pow256(4)
  {
    LeValue(Slice(data, IvStart, IvStart + IvLength))
  }

  /**
    The eight-byte nonce: `iv2 = iv1 ^ 0xDEADBEAF` in little-endian order,
    then `iv1` in little-endian order.
   */
  function Nonce(data: seq<byte>): (iv: seq<byte>)
    ensures |iv| == 8
    ensures LeValue(iv[4..]) == Iv1(data)
    ensures LeValue(iv[..4]) == MaskIv(Iv1(data))
  {
    var iv1 := Iv1(data);
    var iv2 := MaskIv(iv1);
    var iv := LeBytes(iv2, 4) + LeBytes(iv1, 4);
    LeValueOfBytes(iv1, 4);
    LeValueOfBytes(iv2, 4);
    assert iv[4..] == LeBytes(iv1, 4) && iv[..4] == LeBytes(iv2, 4);
    iv
  }

  /** The nonce's second half is the packet's own bytes 0x40 to 0x44, and the first half unmasks to them. */
  lemma NonceCarriesIvBytes(data: seq<byte>)
    requires |data| >= IvStart + IvLength
    ensures Nonce(data)[4..] == data[IvStart..IvStart + IvLength]
    ensures MaskIv(LeValue(Nonce(data)[..4])) == LeValue(data[IvStart..IvStart + IvLength])
  {
    var oiv := data[IvStart..IvStart + IvLength];
    LeBytesOfValue(oiv);
    LeBytesOfValue(Nonce(data)[4..]);
    MaskIvTwice(Iv1(data));
  }

  /** `_decrypt_packet`: the decrypted bytes when they start with the magic number, else nothing. */
  function DecryptPacket(data: seq<byte>, salsa: Cipher): (r: seq<byte>)
    ensures var decrypted := salsa(data, Nonce(data), CipherKey());
      (r == []) <==> LeValue(Slice(decrypted, 0, 4)) != Magic
    ensures r != [] ==> r == salsa(data, Nonce(data), CipherKey()) && |r| >= 4
  {
    var decrypted := salsa(data, Nonce(data), CipherKey());
    var head := Slice(decrypted, 0, 4);
    if LeValue(head) != Magic then []
    else
      MagicNeedsFourBytes(head);
      decrypted
  }

  /** Only four bytes can spell the magic number. */
  lemma MagicNeedsFourBytes(b: seq<byte>)
    requires |b| <= 4 && LeValue(b) == Magic
    ensures |b| == 4
  {
  }

  // ---------------------------------------------------------------- the receive loop

  /** What one `recvfrom` call produced. */
  datatype Event = Received(data: seq<byte>) | SocketTimeout

  /** The packet counter and the number of heartbeats sent so far. */
  datatype Counter = Counter(packetCount: int, heartbeats: nat)

  /** One event's effect on the counter. */
  function CountStep(c: Counter, e: Event): (r: Counter)
    ensures e.SocketTimeout? ==> r == Counter(0, c.heartbeats + 1)
    ensures e.Received? && c.packetCount + 1 > HeartbeatInterval ==> r == Counter(0, c.heartbeats + 1)
    ensures e.Received? && c.packetCount + 1 <= HeartbeatInterval ==> r == Counter(c.packetCount + 1, c.heartbeats)
  {
    match e
    case SocketTimeout => Counter(0, c.heartbeats + 1)
    case Received(_) =>
      var n := c.packetCount + 1;
      if n > HeartbeatInterval then Counter(0, c.heartbeats + 1) else Counter(n, c.heartbeats)
  }

  /** The counter after a run of events. */
  function CountAll(c: Counter, events: seq<Event>): Counter
  {
    if |events| == 0 then c else CountStep(CountAll(c, events[..|events| - 1]), events[|events| - 1])
  }

  /** The packets handed to the parser, in order: the decrypted packets that passed the magic check. */
  function Parsed(events: seq<Event>, salsa: Cipher): (r: seq<seq<byte>>)
    ensures forall i :: 0 <= i < |r| ==> r[i] != []
    ensures |r| <= |events|
  {
    if |events| == 0 then []
    else
      var e := events[|events| - 1];
      var rest := Parsed(events[..|events| - 1], salsa);
      if e.Received? && DecryptPacket(e.data, salsa) != [] then rest + [DecryptPacket(e.data, salsa)] else rest
  }

  /** After any event the counter is between 0 and 100, whatever it was before, as long as it was not negative. */
  lemma CountStaysInInterval(c: Counter, e: Event)
    requires 0 <= c.packetCount
    ensures 0 <= CountStep(c, e).packetCount <= HeartbeatInterval
  {
  }

  /** One heartbeat per timeout and per 101st packet since the last reset, over any run. */
  lemma {:induction false} HeartbeatsAtMostOnePerEvent(c: Counter, events: seq<Event>)
    requires 0 <= c.packetCount <= HeartbeatInterval
    ensures var r := CountAll(c, events);
      0 <= r.packetCount <= HeartbeatInterval && c.heartbeats <= r.heartbeats <= c.heartbeats + |events|
    decreases |events|
  {
    if |events| > 0 {
      HeartbeatsAtMostOnePerEvent(c, events[..|events| - 1]);
    }
  }

  /** From a fresh count, up to 100 packets send no heartbeat and leave the count at the number of packets. */
  lemma {:induction false} FirstHundredPacketsSendNone(c: Counter, packets: seq<Event>)
    requires c.packetCount == 0
    requires forall i :: 0 <= i < |packets| ==> packets[i].Received?
    requires |packets| <= HeartbeatInterval
    ensures CountAll(c, packets) == Counter(|packets|, c.heartbeats)
    decreases |packets|
  {
    if |packets| > 0 {
      FirstHundredPacketsSendNone(c, packets[..|packets| - 1]);
    }
  }

  /** From a fresh count, the 101st packet sends the first heartbeat and clears the count. */
  lemma HundredAndFirstPacketSendsHeartbeat(c: Counter, packets: seq<Event>)
    requires c.packetCount == 0
    requires forall i :: 0 <= i < |packets| ==> packets[i].Received?
    requires |packets| == HeartbeatInterval + 1
    ensures CountAll(c, packets) == Counter(0, c.heartbeats + 1)
  {
    FirstHundredPacketsSendNone(c, packets[..HeartbeatInterval]);
  }

  /** A timeout always sends a heartbeat and clears the count. */
  lemma TimeoutResets(c: Counter, events: seq<Event>)
    requires |events| > 0 && events[|events| - 1].SocketTimeout?
    ensures CountAll(c, events) == Counter(0, CountAll(c, events[..|events| - 1]).heartbeats + 1)
  {
  }

  /** Every packet handed to the parser carries the magic number in its first four bytes. */
  lemma {:induction false} ParsedPacketsCarryMagic(events: seq<Event>, salsa: Cipher)
    ensures forall p :: p in Parsed(events, salsa) ==> |p| >= 4 && LeValue(p[..4]) == Magic
    decreases |events|
  {
    if |events| > 0 {
      ParsedPacketsCarryMagic(events[..|events| - 1], salsa);
      var e := events[|events| - 1];
      if e.Received? && DecryptPacket(e.data, salsa) != [] {
        var p := DecryptPacket(e.data, salsa);
        assert Slice(p, 0, 4) == p[..4];
      }
    }
  }

  class TelemetryReader {
    var packetCount: int
    var heartbeats: nat

    constructor ()
      ensures packetCount == 0 && heartbeats == 0
    {
      packetCount := 0;
      heartbeats := 0;
    }

    /**
      `stream` over a finite run of receive events: one heartbeat first,
      then for each event the counter update and, for a packet that
      decrypts, its hand-over to the parser.
     */
    method Stream(events: seq<Event>, salsa: Cipher) returns (parsed: seq<seq<byte>>)
      modifies this
      ensures Counter(packetCount, heartbeats) == CountAll(Counter(old(packetCount), old(heartbeats) + 1), events)
      ensures parsed == Parsed(events, salsa)
    {
      heartbeats := heartbeats + 1;
      ghost var start := Counter(packetCount, heartbeats);
      parsed := [];
      var i := 0;
      while i < |events|
        invariant 0 <= i <= |events|
        invariant Counter(packetCount, heartbeats) == CountAll(start, events[..i])
        invariant parsed == Parsed(events[..i], salsa)
      {
        assert events[..i + 1][..i] == events[..i];
        match events[i] {
          case Received(data) =>
            packetCount := packetCount + 1;
            if packetCount > HeartbeatInterval {
              heartbeats := heartbeats + 1;
              packetCount := 0;
            }
            var decryptedData := DecryptPacket(data, salsa);
            if decryptedData != [] {
              parsed := parsed + [decryptedData];
            }
          case SocketTimeout =>
            heartbeats := heartbeats + 1;
            packetCount := 0;
        }
        i := i + 1;
      }
      assert events[..|events|] == events;
    }
  }
}

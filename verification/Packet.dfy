/** The 32-byte V1 packet: commands, acknowledgements and data responses, closed by a CRC. */
module Packet {
  import opened Bits
  import opened Wrappers
  import opened Crc

  const PACKET_SIZE := 32
  const CRC_OFFSET := 30
  const DATA_MAX := 27
  const GETSTAT: uint8 := 0x01
  const PING: uint8 := 0x02
  const GETVER: uint8 := 0x03
  const MOVE: uint8 := 0x0A
  const STOP: uint8 := 0x0B

  type int8 = x: int | -0x80 <= x < 0x80
  type PacketBytes = p: seq<uint8> | |p| == PACKET_SIZE witness seq(PACKET_SIZE, _ => 0)

  datatype Command = Command(command: uint8, argument: int8)
  datatype Response = Response(sourceId: uint8, command: uint8, argument: int8, data: seq<uint8>)

  /** The C conversions between int8_t and uint8_t. */
  function ToUint8(a: int8): uint8 {
    if a < 0 then a + 0x100 else a
  }

  function ToInt8(b: uint8): int8 {
    if b < 0x80 then b else b - 0x100
  }

  function ZeroBytes(n: nat): (z: seq<uint8>)
    ensures |z| == n
  {
    seq(n, _ => 0)
  }

  // ---------------------------------------------------------------------------
  // The CRC field
  // ---------------------------------------------------------------------------

  /** The remainder of the data (see Crc.RemainderUnique) as a number. */
  function Crc16(data: seq<uint8>): (crc: uint16)
    ensures WordBits(crc) == FeedAll(Ones(16), BytesBits(data))
  {
    Pow2Words();
    BitsOfValue(FeedAll(Ones(16), BytesBits(data)));
    Value(FeedAll(Ones(16), BytesBits(data)))
  }

  function Finish(body: seq<uint8>): PacketBytes
    requires |body| == CRC_OFFSET
  {
    body + [Crc16(body) % 0x100, Crc16(body) / 0x100]
  }

  predicate CrcValid(p: PacketBytes) {
    Word(p[30], p[31]) == Crc16(p[..CRC_OFFSET])
  }

  method FinishPacket(packet: array<uint8>)
    requires packet.Length == PACKET_SIZE
    modifies packet
    ensures packet[..] == Finish(old(packet[..CRC_OFFSET]))
  {
    var crc := Crc16Ccitt(packet, CRC_OFFSET);
    WordBitsInjective(crc, Crc16(packet[..CRC_OFFSET]));
    packet[CRC_OFFSET] := crc % 0x100;
    packet[CRC_OFFSET + 1] := crc / 0x100;
    assert packet[..] == packet[..CRC_OFFSET] + [crc % 0x100, crc / 0x100];
  }

  method PacketCrcValid(packet: array<uint8>) returns (valid: bool)
    requires packet.Length == PACKET_SIZE
    ensures valid == CrcValid(packet[..])
  {
    var expected := Word(packet[CRC_OFFSET], packet[CRC_OFFSET + 1]);
    var crc := Crc16Ccitt(packet, CRC_OFFSET);
    WordBitsInjective(crc, Crc16(packet[..CRC_OFFSET]));
    assert packet[..][..CRC_OFFSET] == packet[..CRC_OFFSET];
    valid := expected == crc;
  }

  // ---------------------------------------------------------------------------
  // Encoding and decoding
  // ---------------------------------------------------------------------------

  /** The test (b & 0xF0) == 0xF0. */
  predicate IsResponse(b: uint8) {
    b >= 0xF0
  }

  /** 0xF0 | (source_id - 1), truncated to a byte. */
  function AckByte(sourceId: uint8): uint8 {
    0xF0 + (sourceId - 1) % 16
  }

  predicate CarriesData(command: uint8) {
    command == GETSTAT || command == GETVER
  }

  function CommandPacket(c: Command): PacketBytes {
    Finish([c.command, ToUint8(c.argument)] + ZeroBytes(28))
  }

  function AckPacket(sourceId: uint8, command: uint8, argument: int8): PacketBytes {
    Finish([AckByte(sourceId), command, ToUint8(argument)] + ZeroBytes(27))
  }

  function DataPacket(sourceId: uint8, command: uint8, data: seq<uint8>): PacketBytes
    requires |data| <= DATA_MAX
  {
    Finish([AckByte(sourceId), command, |data|] + data + ZeroBytes(DATA_MAX - |data|))
  }

  function DecodedCommand(p: PacketBytes): Option<Command> {
    if !CrcValid(p) || IsResponse(p[0]) then None else Some(Command(p[0], ToInt8(p[1])))
  }

  function DecodedResponse(p: PacketBytes): Option<Response> {
    if !CrcValid(p) || !IsResponse(p[0]) then None
    else if !CarriesData(p[1]) then Some(Response(p[0] % 16 + 1, p[1], ToInt8(p[2]), []))
    else if p[2] > DATA_MAX then None
    else Some(Response(p[0] % 16 + 1, p[1], ToInt8(p[2]), p[3..3 + p[2]]))
  }

  method Clear(packet: array<uint8>)
    modifies packet
    ensures packet[..] == ZeroBytes(packet.Length)
  {
    forall i | 0 <= i < packet.Length {
      packet[i] := 0;
    }
  }

  method EncodeCommand(c: Command, packet: array<uint8>)
    requires packet.Length == PACKET_SIZE
    modifies packet
    ensures packet[..] == CommandPacket(c)
  {
    Clear(packet);
    packet[0] := c.command;
    packet[1] := ToUint8(c.argument);
    assert packet[..CRC_OFFSET] == [c.command, ToUint8(c.argument)] + ZeroBytes(28);
    FinishPacket(packet);
  }

  method EncodeAck(sourceId: uint8, command: uint8, argument: int8, packet: array<uint8>)
    requires packet.Length == PACKET_SIZE
    modifies packet
    ensures packet[..] == AckPacket(sourceId, command, argument)
  {
    Clear(packet);
    packet[0] := AckByte(sourceId);
    packet[1] := command;
    packet[2] := ToUint8(argument);
    assert packet[..CRC_OFFSET] == [AckByte(sourceId), command, ToUint8(argument)] + ZeroBytes(27);
    FinishPacket(packet);
  }

  method EncodeDataResponse(sourceId: uint8, command: uint8, data: seq<uint8>, packet: array<uint8>)
    returns (encoded: bool)
    requires packet.Length == PACKET_SIZE
    modifies packet
    ensures encoded == (|data| <= DATA_MAX)
    ensures packet[..] == if encoded then DataPacket(sourceId, command, data) else old(packet[..])
  {
    if |data| > DATA_MAX {
      return false;
    }
    Clear(packet);
    packet[0] := AckByte(sourceId);
    packet[1] := command;
    packet[2] := |data|;
    forall i | 0 <= i < |data| {
      packet[3 + i] := data[i];
    }
    assert packet[..CRC_OFFSET] ==
           [AckByte(sourceId), command, |data|] + data + ZeroBytes(DATA_MAX - |data|);
    FinishPacket(packet);
    return true;
  }

  method DecodeCommand(packet: array<uint8>) returns (r: Option<Command>)
    requires packet.Length == PACKET_SIZE
    ensures r == DecodedCommand(packet[..])
  {
    var valid := PacketCrcValid(packet);
    if !valid || IsResponse(packet[0]) {
      return None;
    }
    return Some(Command(packet[0], ToInt8(packet[1])));
  }

  method DecodeResponse(packet: array<uint8>) returns (r: Option<Response>)
    requires packet.Length == PACKET_SIZE
    ensures r == DecodedResponse(packet[..])
  {
    var valid := PacketCrcValid(packet);
    if !valid || !IsResponse(packet[0]) {
      return None;
    }
    var length := 0;
    if packet[1] == GETSTAT || packet[1] == GETVER {
      length := packet[2];
      if length > DATA_MAX {
        return None;
      }
    }
    assert packet[..][3..3 + length] == packet[3..3 + length];
    assert length == 0 ==> packet[3..3 + length] == [];
    return Some(Response(packet[0] % 16 + 1, packet[1], ToInt8(packet[2]), packet[3..3 + length]));
  }

  lemma FinishedIsValid(body: seq<uint8>)
    requires |body| == CRC_OFFSET
    ensures CrcValid(Finish(body))
  {
    assert Finish(body)[..CRC_OFFSET] == body;
  }

  /** The body, byte by byte, and after it its CRC, low byte first. */
  predicate LaidOut(p: PacketBytes, body: seq<uint8>)
    requires |body| <= 30
  {
    && p[..|body|] == body && (forall i :: |body| <= i < 30 ==> p[i] == 0)
    && (p[30] as int) + 256 * (p[31] as int) == Crc16(p[..30])
  }

  predicate IsByte(b: uint8, a: int8) {
    b == if a < 0 then (a as int) + 256 else a
  }

  lemma CommandLayout(c: Command)
    ensures var p := CommandPacket(c);
            LaidOut(p, [c.command, p[1]]) && IsByte(p[1], c.argument)
  {
    var body := [c.command, ToUint8(c.argument)] + ZeroBytes(28);
    assert CommandPacket(c)[..30] == body && body[..2] == [c.command, ToUint8(c.argument)];
  }

  lemma AckLayout(sourceId: uint8, command: uint8, argument: int8)
    requires 1 <= sourceId <= 16
    ensures var p := AckPacket(sourceId, command, argument);
            LaidOut(p, [239 + (sourceId as int), command, p[2]]) && IsByte(p[2], argument)
  {
    var body := [AckByte(sourceId), command, ToUint8(argument)] + ZeroBytes(27);
    assert AckPacket(sourceId, command, argument)[..30] == body;
    assert body[..3] == [AckByte(sourceId), command, ToUint8(argument)];
  }

  lemma DataLayout(sourceId: uint8, command: uint8, data: seq<uint8>)
    requires 1 <= sourceId <= 16 && |data| <= 27
    ensures LaidOut(DataPacket(sourceId, command, data), [239 + (sourceId as int), command, |data|] + data)
  {
    var head := [AckByte(sourceId), command, |data|] + data;
    var body := head + ZeroBytes(DATA_MAX - |data|);
    assert DataPacket(sourceId, command, data)[..30] == body && body[..|head|] == head;
  }

  /** Decoding inverts encoding for exactly the commands whose high nibble is not the response mark. */
  lemma CommandRoundTrip(c: Command)
    ensures DecodedCommand(CommandPacket(c)) == Some(c) <==> c.command < 0xF0
    ensures c.command >= 0xF0 ==> DecodedCommand(CommandPacket(c)) == None
  {
    FinishedIsValid([c.command, ToUint8(c.argument)] + ZeroBytes(28));
    var p := CommandPacket(c);
    assert p[0] == c.command && p[1] == ToUint8(c.argument);
  }

  /** An acknowledgement decodes to itself exactly for sources 1..16 and, for data commands, argument 0. */
  lemma AckRoundTrip(sourceId: uint8, command: uint8, argument: int8)
    ensures DecodedResponse(AckPacket(sourceId, command, argument)) == Some(Response(sourceId, command, argument, []))
            <==> 1 <= sourceId <= 16 && (CarriesData(command) ==> argument == 0)
  {
    AckPacketParts(sourceId, command, argument);
    AckByteSource(sourceId);
    var p := AckPacket(sourceId, command, argument);
    assert p[3..3] == [];
  }

  lemma AckPacketParts(sourceId: uint8, command: uint8, argument: int8)
    ensures var p := AckPacket(sourceId, command, argument);
            CrcValid(p) && p[0] == AckByte(sourceId) && p[1] == command && p[2] == ToUint8(argument)
  {
    FinishedIsValid([AckByte(sourceId), command, ToUint8(argument)] + ZeroBytes(27));
  }

  lemma DataPacketParts(sourceId: uint8, command: uint8, data: seq<uint8>)
    requires |data| <= DATA_MAX
    ensures var p := DataPacket(sourceId, command, data);
            && CrcValid(p) && p[0] == AckByte(sourceId) && p[1] == command && p[2] == |data|
            && p[3..3 + |data|] == data
  {
    var body := [AckByte(sourceId), command, |data|] + data + ZeroBytes(DATA_MAX - |data|);
    FinishedIsValid(body);
    assert body[3..3 + |data|] == data;
    assert Finish(body)[..CRC_OFFSET] == body;
  }

  /** A data response decodes to its data exactly for sources 1..16 and, for other commands, no data. */
  lemma DataRoundTrip(sourceId: uint8, command: uint8, data: seq<uint8>)
    requires |data| <= DATA_MAX
    ensures DecodedResponse(DataPacket(sourceId, command, data)) == Some(Response(sourceId, command, |data|, data))
            <==> 1 <= sourceId <= 16 && (!CarriesData(command) ==> data == [])
  {
    DataPacketParts(sourceId, command, data);
    AckByteSource(sourceId);
  }

  lemma AckByteSource(sourceId: uint8)
    ensures IsResponse(AckByte(sourceId))
    ensures AckByte(sourceId) % 16 + 1 == sourceId <==> 1 <= sourceId <= 16
  {
  }

  /** No packet is both a command and a response, and a decoded source is always a remote. */
  lemma DecodersDisjoint(p: PacketBytes)
    ensures DecodedCommand(p).None? || DecodedResponse(p).None?
    ensures DecodedResponse(p).Some? ==> 1 <= DecodedResponse(p).value.sourceId <= 16
    ensures DecodedResponse(p).Some? ==> |DecodedResponse(p).value.data| <= DATA_MAX
    ensures !CrcValid(p) ==> DecodedCommand(p).None? && DecodedResponse(p).None?
  {
  }

  /** The decoder ignores the padding: only with zero padding is the packet the canonical encoding. */
  lemma CommandCanonicalIff(p: PacketBytes)
    requires DecodedCommand(p).Some?
    ensures CommandPacket(DecodedCommand(p).value) == p <==> p[2..CRC_OFFSET] == ZeroBytes(28)
  {
    var c := DecodedCommand(p).value;
    var body := [c.command, ToUint8(c.argument)] + ZeroBytes(28);
    assert CommandPacket(c) == Finish(body) && Finish(body)[..CRC_OFFSET] == body && body[2..] == ZeroBytes(28);
    PaddingDecides(p, body);
  }

  lemma PaddingDecides(p: PacketBytes, body: seq<uint8>)
    requires CrcValid(p) && |body| == CRC_OFFSET && body[..2] == p[..2]
    ensures Finish(body) == p <==> p[2..CRC_OFFSET] == body[2..]
  {
    FieldDetermined(p);
    assert p[..CRC_OFFSET] == p[..2] + p[2..CRC_OFFSET] && body == body[..2] + body[2..];
    assert Finish(body)[..CRC_OFFSET] == body;
  }

  /** A valid packet is its body, finished. */
  lemma FieldDetermined(p: PacketBytes)
    requires CrcValid(p)
    ensures p == Finish(p[..CRC_OFFSET])
  {
    WordBytes(p[30], p[31]);
    assert p == p[..CRC_OFFSET] + [p[30], p[31]];
  }

  lemma WordBytes(lo: uint8, hi: uint8)
    ensures Word(lo, hi) % 0x100 == lo && Word(lo, hi) / 0x100 == hi
  {
  }
}

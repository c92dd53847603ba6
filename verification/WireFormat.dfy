/** The V2 frames: commands to the Wanderer, replies from it. Multi-byte fields are little-endian. */
module WireFormat {
  import opened Bits
  import opened Wrappers
  import opened Tactical

  const CMD_NOP: uint8 := 0x00
  const CMD_STOP: uint8 := 0x10
  const CMD_ARM: uint8 := 0x11
  const CMD_MOVE: uint8 := 0x12
  const CMD_GETVER: uint8 := 0x20
  const CMD_GETSTAT: uint8 := 0x21
  const CMD_GETPA: uint8 := 0x22
  const CMD_SETPA: uint8 := 0x23

  const REPLY_TELEMETRY: uint8 := 0x01
  const REPLY_VERSION: uint8 := 0x02
  const REPLY_STAT: uint8 := 0x03
  const REPLY_PA: uint8 := 0x04

  const FIRMWARE_MAJOR: uint8 := 0
  const FIRMWARE_MINOR: uint8 := 7

  datatype Request =
    | Nop | StopRequest | ArmRequest | MoveRequest(left: int16, right: int16)
    | GetVersion | GetStat | GetPa | SetPa(level: uint8)

  function Unsigned(v: int16): uint16 {
    if v < 0 then v as int + 0x1_0000 else v
  }

  function Low(v: int16): uint8 {
    Unsigned(v) % 0x100
  }

  function High(v: int16): uint8 {
    Unsigned(v) / 0x100
  }

  function Signed(lo: uint8, hi: uint8): int16 {
    ToInt16(Word(lo, hi))
  }

  function Encode(r: Request, sequence: uint8): Bytes {
    match r
    case Nop => [CMD_NOP, sequence]
    case StopRequest => [CMD_STOP, sequence]
    case ArmRequest => [CMD_ARM, sequence]
    case MoveRequest(left, right) => [CMD_MOVE, sequence, Low(left), High(left), Low(right), High(right)]
    case GetVersion => [CMD_GETVER, sequence]
    case GetStat => [CMD_GETSTAT, sequence]
    case GetPa => [CMD_GETPA, sequence]
    case SetPa(level) => [CMD_SETPA, sequence, level]
  }

  /** What the Wanderer takes the bytes for: the exact length is checked before anything else is read. */
  function Parse(p: Bytes): Option<Request> {
    if |p| < 2 then None
    else if p[0] == CMD_MOVE then
      if |p| == 6 then Some(MoveRequest(Signed(p[2], p[3]), Signed(p[4], p[5]))) else None
    else if p[0] == CMD_SETPA then if |p| == 3 then Some(SetPa(p[2])) else None
    else if |p| != 2 then None
    else if p[0] == CMD_NOP then Some(Nop)
    else if p[0] == CMD_STOP then Some(StopRequest)
    else if p[0] == CMD_ARM then Some(ArmRequest)
    else if p[0] == CMD_GETVER then Some(GetVersion)
    else if p[0] == CMD_GETSTAT then Some(GetStat)
    else if p[0] == CMD_GETPA then Some(GetPa)
    else None
  }

  lemma SignedRoundTrip(v: int16)
    ensures Signed(Low(v), High(v)) == v
  {
  }

  lemma UnsignedOfSigned(x: uint16)
    ensures Unsigned(ToInt16(x)) == x
  {
  }

  lemma UnsignedRoundTrip(lo: uint8, hi: uint8)
    ensures Low(Signed(lo, hi)) == lo && High(Signed(lo, hi)) == hi
  {
    UnsignedOfSigned(Word(lo, hi));
  }

  /** The low byte and then the high byte of a 16-bit two's-complement number. */
  predicate IsWord(lo: uint8, hi: uint8, v: int16) {
    (lo as int) + 256 * (hi as int) == if v < 0 then (v as int) + 65536 else v
  }

  lemma WordBytes(v: int16)
    ensures IsWord(Low(v), High(v), v)
  {
  }

  /** The frames of the commands, byte by byte: type, sequence, and the arguments. */
  lemma RequestBytes(r: Request, sequence: uint8)
    ensures var p := Encode(r, sequence);
            && |p| >= 2 && p[1] == sequence
            && match r
               case Nop => p[0] == 0x00 && |p| == 2
               case StopRequest => p[0] == 0x10 && |p| == 2
               case ArmRequest => p[0] == 0x11 && |p| == 2
               case MoveRequest(left, right) =>
                 p[0] == 0x12 && |p| == 6 && IsWord(p[2], p[3], left) && IsWord(p[4], p[5], right)
               case GetVersion => p[0] == 0x20 && |p| == 2
               case GetStat => p[0] == 0x21 && |p| == 2
               case GetPa => p[0] == 0x22 && |p| == 2
               case SetPa(level) => p[0] == 0x23 && |p| == 3 && p[2] == level
  {
    if r.MoveRequest? {
      WordBytes(r.left);
      WordBytes(r.right);
    }
  }

  /** The bytes the base sends, and only they, are taken for the request it meant. */
  lemma ParseIffEncoded(p: Bytes, r: Request)
    ensures Parse(p) == Some(r) <==> |p| >= 2 && p == Encode(r, p[1])
  {
    if r.MoveRequest? {
      SignedRoundTrip(r.left);
      SignedRoundTrip(r.right);
    }
    if |p| == 6 {
      UnsignedRoundTrip(p[2], p[3]);
      UnsignedRoundTrip(p[4], p[5]);
    }
  }

  // ---------------------------------------------------------------------------
  // Replies
  // ---------------------------------------------------------------------------

  datatype Reply =
    | Telemetry(sequence: uint8, state: uint8, armed: bool, moving: bool)
    | Version(major: uint8, minor: uint8)
    | Stat(statArmed: bool, statMoving: bool, left: int16, right: int16)
    | Pa(level: uint8)

  function Flags(armed: bool, moving: bool): uint8 {
    (if armed then 2 else 0) + if moving then 1 else 0
  }

  function EncodeReply(r: Reply): Bytes {
    match r
    case Telemetry(sequence, state, armed, moving) => [REPLY_TELEMETRY, sequence, state, Flags(armed, moving)]
    case Version(major, minor) => [REPLY_VERSION, major, minor]
    case Stat(armed, moving, left, right) =>
      [REPLY_STAT, Flags(armed, moving), Low(left), High(left), Low(right), High(right)]
    case Pa(level) => [REPLY_PA, level]
  }

  /** What the base's dispatcher takes a frame for; an unknown or ill-sized frame is nothing. */
  function ParseReply(p: Bytes): Option<Reply> {
    if p == [] then None
    else if p[0] == REPLY_TELEMETRY then
      if |p| == 4 then Some(Telemetry(p[1], p[2], p[3] / 2 % 2 == 1, p[3] % 2 == 1)) else None
    else if p[0] == REPLY_VERSION then if |p| == 3 then Some(Version(p[1], p[2])) else None
    else if p[0] == REPLY_STAT then
      if |p| == 6 then Some(Stat(p[1] / 2 % 2 == 1, p[1] % 2 == 1, Signed(p[2], p[3]), Signed(p[4], p[5]))) else None
    else if p[0] == REPLY_PA then if |p| == 2 then Some(Pa(p[1])) else None
    else None
  }

  /** Moving is bit 0 of the flags and armed bit 1; no other bit is set. */
  predicate AreFlags(b: uint8, armed: bool, moving: bool) {
    b < 4 && (b % 2 == 1 <==> moving) && (b >= 2 <==> armed)
  }

  /** The frames of the replies, byte by byte. */
  lemma ReplyBytes(r: Reply)
    ensures var p := EncodeReply(r);
            match r
            case Telemetry(sequence, state, armed, moving) =>
              |p| == 4 && p[0] == 0x01 && p[1] == sequence && p[2] == state && AreFlags(p[3], armed, moving)
            case Version(major, minor) => p == [0x02, major, minor]
            case Stat(armed, moving, left, right) =>
              |p| == 6 && p[0] == 0x03 && AreFlags(p[1], armed, moving)
              && IsWord(p[2], p[3], left) && IsWord(p[4], p[5], right)
            case Pa(level) => p == [0x04, level]
  {
    if r.Stat? {
      WordBytes(r.left);
      WordBytes(r.right);
    }
  }

  /** What is taken for a reply is its encoding, but for the unused bits of the flags; anything else is none. */
  lemma ReplyIffEncoded(p: Bytes, r: Reply)
    ensures ParseReply(p) == Some(r) ==>
              && p != [] && |p| == |EncodeReply(r)|
              && forall i :: 0 <= i < |p| && !(r.Telemetry? && i == 3) && !(r.Stat? && i == 1) ==>
                   p[i] == EncodeReply(r)[i]
  {
    if |p| == 6 {
      UnsignedRoundTrip(p[2], p[3]);
      UnsignedRoundTrip(p[4], p[5]);
    }
  }

  lemma ReplyRoundTrip(r: Reply)
    ensures ParseReply(EncodeReply(r)) == Some(r)
  {
    if r.Stat? {
      SignedRoundTrip(r.left);
      SignedRoundTrip(r.right);
    }
  }
}

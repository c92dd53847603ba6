/** The Wanderer's downlink: one frame staged on the radio's ACK payloads for every command read. */
module Wanderer {
  import opened Bits
  import opened Wrappers
  import opened Counters
  import opened RfQueue
  import opened WireFormat
  import T = Tactical

  const TX_DEPTH := 3
  const RADIO_PIPE := 1

  type PaLevel = x: uint8 | x <= 3

  /**
   * fifo is the radio's transmit FIFO. The three logs are history: every frame the FIFO accepted, every
   * telemetry frame built, and every reply queued together with the request it answers.
   */
  datatype Downlink = Downlink(
    core: T.Core, queue: seq<Bytes>, fifo: seq<Bytes>, sequence: uint8, pa: PaLevel,
    staged: seq<Bytes>, built: seq<Bytes>, answers: seq<(Request, Bytes)>)

  const NEW_DOWNLINK := Downlink(T.INITIAL, [], [], 0, 0, [], [], [])

  /** A frame read from the radio. Length zero is the sign of a corrupted length register. */
  datatype Received = Received(pipe: nat, payload: Bytes, now: Time)

  function StateCode(s: T.State): uint8 {
    match s
    case Safe => 0
    case Active => 1
    case Fallback => 2
    case Fault => 3
  }

  predicate Moving(c: T.Core) {
    c.MotorsEnabled() && (c.TargetLeft() != 0 || c.TargetRight() != 0)
  }

  function TelemetryOf(c: T.Core, sequence: uint8): Bytes {
    EncodeReply(Telemetry(sequence, StateCode(c.state), c.MotorsEnabled(), Moving(c)))
  }

  function StatOf(c: T.Core): Bytes {
    EncodeReply(Stat(c.MotorsEnabled(), Moving(c), c.TargetLeft(), c.TargetRight()))
  }

  /** writeAckPayload: the frame is taken unless the FIFO is full. */
  function Write(d: Downlink, frame: Bytes): Downlink {
    if |d.fifo| < TX_DEPTH then d.(fifo := d.fifo + [frame], staged := d.staged + [frame]) else d
  }

  function StageNext(d: Downlink): Downlink {
    if d.queue != [] then Write(d.(queue := d.queue[1..]), d.queue[0])
    else
      var frame := TelemetryOf(d.core, d.sequence);
      Write(d.(sequence := (d.sequence + 1) % 0x100, built := d.built + [frame]), frame)
  }

  function Restage(d: Downlink): Downlink {
    StageNext(d.(fifo := []))
  }

  function Answer(d: Downlink, r: Request, reply: Bytes): Downlink {
    if |d.queue| < DEPTH then d.(queue := d.queue + [reply], answers := d.answers + [(r, reply)]) else d
  }

  function Obey(d: Downlink, r: Request, now: Time): Downlink {
    match r
    case Nop => d
    case StopRequest => d.(core := T.Apply(d.core, T.Stop(now)))
    case ArmRequest => d.(core := T.Apply(d.core, T.Arm(now)))
    case MoveRequest(left, right) => d.(core := T.Apply(d.core, T.Move(left, right, now)))
    case GetVersion => Answer(d, r, EncodeReply(Version(FIRMWARE_MAJOR, FIRMWARE_MINOR)))
    case GetStat => Answer(d, r, StatOf(d.core))
    case GetPa => Answer(d, r, EncodeReply(Pa(d.pa)))
    case SetPa(level) =>
      var d' := if level <= 3 then d.(pa := level) else d;
      Answer(d', r, EncodeReply(Pa(d'.pa)))
  }

  /** One command read: the commander is alive whatever the frame holds, and only then is it looked at. */
  function Hear(d: Downlink, m: Received): Downlink {
    var d := d.(core := T.Apply(d.core, T.Alive(m.now)));
    var r := Parse(m.payload);
    if m.pipe == RADIO_PIPE && r.Some? then Obey(d, r.value, m.now) else d
  }

  function Handle(d: Downlink, m: Received): Downlink {
    var heard := Hear(d, m);
    var next := StageNext(heard);
    if |heard.fifo| < TX_DEPTH then next else Restage(next)
  }

  /** The receive loop; a zero length has already emptied the receive FIFO and ends it. */
  function HandleAll(d: Downlink, ms: seq<Received>): Downlink
    decreases |ms|
  {
    if ms == [] then d
    else if ms[0].payload == [] then Restage(d)
    else HandleAll(Handle(d, ms[0]), ms[1..])
  }

  // ---------------------------------------------------------------------------
  // What a frame can do to the vehicle
  // ---------------------------------------------------------------------------

  /** The vehicle operation a frame asks for, if any. */
  function OpOf(m: Received): Option<T.Op> {
    var r := Parse(m.payload);
    if m.pipe != 1 || r.None? then None
    else
      match r.value
      case StopRequest => Some(T.Stop(m.now))
      case ArmRequest => Some(T.Arm(m.now))
      case MoveRequest(left, right) => Some(T.Move(left, right, m.now))
      case _ => None
  }

  /** A frame is a sign of life, then at most one operation of the vehicle's state machine. */
  lemma FrameIsOps(d: Downlink, m: Received)
    ensures Handle(d, m).core == Hear(d, m).core
    ensures Hear(d, m).core ==
            var alive := T.Apply(d.core, T.Alive(m.now));
            if OpOf(m).Some? then T.Apply(alive, OpOf(m).value) else alive
  {
  }

  /**
   * Any frame whatever, even a malformed one on another pipe, is a sign of life and holds off Fallback for
   * 750 ms; a length of zero is no frame and no sign of life.
   */
  lemma AnyFrameIsLife(d: Downlink, m: Received, now: Time)
    ensures var c := HandleAll(d, [m]).core;
            && (m.payload == [] ==> c == d.core)
            && (m.payload != [] ==> c.lastSeen == m.now)
            && (m.payload != [] && c.state == T.Active ==>
                  (T.Apply(c, T.Tick(now)).state == T.Active <==> now - m.now <= T.LIVENESS_TIMEOUT_US))
  {
    FrameIsOps(d, m);
    assert [m][1..] == [];
    assert m.payload != [] ==> HandleAll(d, [m]) == HandleAll(Handle(d, m), []);
  }

  /** Only a well-formed MOVE, on the command pipe, to a vehicle that acts on it, can raise a speed. */
  lemma OnlyMoveFramesAccelerate(d: Downlink, m: Received)
    requires T.Gated(d.core) && d.core.lastTick <= m.now && d.core.lastSeen <= m.now
    requires OpOf(m).None? || !T.Accepts(d.core, OpOf(m).value)
    ensures T.Slowed(d.core, Handle(d, m).core) && T.Gated(Handle(d, m).core)
  {
    FrameIsOps(d, m);
    var alive := T.Apply(d.core, T.Alive(m.now));
    T.SlowedStep(d.core, T.Alive(m.now));
    if OpOf(m).Some? {
      T.SlowedStep(alive, OpOf(m).value);
    }
  }

  // ---------------------------------------------------------------------------
  // What the frames say
  // ---------------------------------------------------------------------------

  /** Motors that are off have zero targets, so moving is the same as a target that is not zero. */
  lemma TelemetryTruthful(c: T.Core, sequence: uint8)
    ensures ParseReply(TelemetryOf(c, sequence)) ==
            Some(Telemetry(sequence,
                           match c.state case Safe => 0 case Active => 1 case Fallback => 2 case Fault => 3,
                           c.state == T.Active || c.state == T.Fallback,
                           c.TargetLeft() != 0 || c.TargetRight() != 0))
  {
    ReplyRoundTrip(Telemetry(sequence, StateCode(c.state), c.MotorsEnabled(), Moving(c)));
  }

  /** The reply queued for a query tells the state in effect; SETPA is answered with the level read back. */
  lemma AnswersTruthful(d: Downlink, m: Received)
    requires d.queue == [] && m.pipe == 1 && Parse(m.payload).Some?
    ensures var h, c := Hear(d, m), d.core;
            match Parse(m.payload).value
            case GetVersion => |h.queue| == 1 && ParseReply(h.queue[0]) == Some(Version(0, 7))
            case GetStat =>
              |h.queue| == 1 &&
              ParseReply(h.queue[0]) ==
                Some(Stat(c.state == T.Active || c.state == T.Fallback,
                          c.TargetLeft() != 0 || c.TargetRight() != 0, c.TargetLeft(), c.TargetRight()))
            case GetPa => |h.queue| == 1 && ParseReply(h.queue[0]) == Some(Pa(d.pa)) && h.pa == d.pa
            case SetPa(level) =>
              |h.queue| == 1 && ParseReply(h.queue[0]) == Some(Pa(h.pa)) && h.pa == if level <= 3 then level else d.pa
            case _ => h.queue == [] && h.pa == d.pa
  {
    var alive := T.Apply(d.core, T.Alive(m.now));
    var r := Parse(m.payload).value;
    assert Hear(d, m) == Obey(d.(core := alive), r, m.now);
    match r
    case GetVersion => ReplyRoundTrip(Version(0, 7));
    case GetStat => StatTruthful(d.core, alive);
    case GetPa => ReplyRoundTrip(Pa(d.pa));
    case SetPa(level) => ReplyRoundTrip(Pa(if level <= 3 then level else d.pa));
    case _ =>
  }

  lemma StatTruthful(c: T.Core, alive: T.Core)
    requires alive == c.(lastSeen := alive.lastSeen)
    ensures ParseReply(StatOf(alive)) ==
            Some(Stat(c.state == T.Active || c.state == T.Fallback,
                      c.TargetLeft() != 0 || c.TargetRight() != 0, c.TargetLeft(), c.TargetRight()))
  {
    ReplyRoundTrip(Stat(alive.MotorsEnabled(), Moving(alive), alive.TargetLeft(), alive.TargetRight()));
  }

  // ---------------------------------------------------------------------------
  // The object
  // ---------------------------------------------------------------------------

  class WandererStation {
    const core: T.TacticalCore
    const queue: Queue
    var fifo: seq<Bytes>
    var sequence: uint8
    var pa: PaLevel
    ghost var staged: seq<Bytes>
    ghost var built: seq<Bytes>
    ghost var answers: seq<(Request, Bytes)>

    ghost predicate Valid()
      reads this, queue, queue.frames
    {
      queue.Valid()
    }

    ghost function Value(): Downlink
      requires Valid()
      reads this, core, queue, queue.frames
    {
      Downlink(core.Value(), queue.Contents(), fifo, sequence, pa, staged, built, answers)
    }

    constructor ()
      ensures Valid() && fresh(core) && fresh(queue) && fresh(queue.frames)
      ensures Value() == NEW_DOWNLINK
    {
      core := new T.TacticalCore();
      queue := new Queue();
      fifo, sequence, pa := [], 0, 0;
      staged, built, answers := [], [], [];
    }

    method WriteAckPayload(frame: Bytes) returns (written: bool)
      requires Valid()
      modifies this`fifo, this`staged
      ensures Valid() && Value() == Write(old(Value()), frame)
      ensures written == (|old(fifo)| < TX_DEPTH)
    {
      written := |fifo| < TX_DEPTH;
      if written {
        fifo := fifo + [frame];
        staged := staged + [frame];
      }
    }

    method StageNextAckPayload() returns (written: bool)
      requires Valid()
      modifies this, queue
      ensures Valid() && Value() == StageNext(old(Value()))
      ensures written == (|old(fifo)| < TX_DEPTH)
    {
      var empty := queue.Empty();
      if !empty {
        var frame := queue.Front();
        var popped := queue.Pop();
        written := WriteAckPayload(frame);
      } else {
        var telemetry := TelemetryOf(core.Value(), sequence);
        sequence := (sequence + 1) % 0x100;
        built := built + [telemetry];
        written := WriteAckPayload(telemetry);
      }
    }

    method RestageAck()
      requires Valid()
      modifies this, queue
      ensures Valid() && Value() == Restage(old(Value()))
    {
      fifo := [];
      var written := StageNextAckPayload();
    }

    method QueueReply(r: Request, reply: Bytes)
      requires Valid() && |reply| <= MAX_PAYLOAD
      modifies this`answers, queue`count, queue.frames
      ensures Valid() && Value() == Answer(old(Value()), r, reply)
    {
      var pushed := queue.Push(reply);
      if pushed {
        answers := answers + [(r, reply)];
      }
    }

    method HandleCommand(payload: Bytes, now: Time) returns (understood: bool)
      requires Valid()
      modifies this, core, queue, queue.frames
      ensures Valid() && understood == Parse(payload).Some?
      ensures Value() == if understood then Obey(old(Value()), Parse(payload).value, now) else old(Value())
    {
      var request := Parse(payload);
      if request.None? {
        return false;
      }
      match request.value {
        case Nop =>
        case StopRequest => core.CmdStop(now);
        case ArmRequest => core.CmdArm(now);
        case MoveRequest(left, right) => var accepted := core.CmdMove(left, right, now);
        case GetVersion => QueueReply(GetVersion, EncodeReply(Version(FIRMWARE_MAJOR, FIRMWARE_MINOR)));
        case GetStat => QueueReply(GetStat, StatOf(core.Value()));
        case GetPa => QueueReply(GetPa, EncodeReply(Pa(pa)));
        case SetPa(level) =>
          if level <= 3 {
            pa := level;
          }
          QueueReply(SetPa(level), EncodeReply(Pa(pa)));
      }
      return true;
    }

    method ProcessRadio(ms: seq<Received>)
      requires Valid()
      modifies this, core, queue, queue.frames
      ensures Valid() && Value() == HandleAll(old(Value()), ms)
    {
      var i := 0;
      while i < |ms|
        invariant 0 <= i <= |ms| && Valid()
        invariant HandleAll(Value(), ms[i..]) == HandleAll(old(Value()), ms)
      {
        assert ms[i..][1..] == ms[i + 1..];
        if |ms[i].payload| == 0 {
          RestageAck();
          return;
        }
        ProcessFrame(ms[i]);
        i := i + 1;
      }
    }

    /** The body of the receive loop. */
    method ProcessFrame(m: Received)
      requires Valid()
      modifies this, core, queue, queue.frames
      ensures Valid() && Value() == Handle(old(Value()), m)
    {
      core.NoteCommanderAlive(m.now);
      if m.pipe == RADIO_PIPE {
        var understood := HandleCommand(m.payload, m.now);
      }
      var written := StageNextAckPayload();
      if !written {
        RestageAck();
      }
    }
  }
}

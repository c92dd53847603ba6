/** The V1 remote: answering commands, recognising repeated pings, and the range-test LED. */
module RemoteStation {
  import opened Bits
  import opened Wrappers
  import opened Packet
  import opened Counters
  import opened RemoteContext

  const LED_PULSE_US := 100_000
  const FIRMWARE_MAJOR: uint8 := 0
  const FIRMWARE_MINOR: uint8 := 2

  type PowerLevel = x: uint8 | x <= 3

  datatype Led = Led(on: bool, pulsing: bool, off: Time)
  datatype Remote = Remote(context: Context, power: PowerLevel, led: Led, rxValid: uint32, rxInvalid: uint32)

  /** At start no ping has been heard: the last sequence is the one before the base's first. */
  const NEW_REMOTE := Remote(NEW_CONTEXT.(pingSeq := 0xFF), 0, Led(false, false, 0), 0, 0)

  datatype Event =
    | Hear(packet: PacketBytes, now: Time, report: TxReport)
    | Service(now: Time)
    | SetPower(level: PowerLevel)
    | ResetCounters

  predicate Repeated(r: Remote, c: Command) {
    ToUint8(c.argument) == r.context.pingSeq
  }

  function LedAfter(repeated: bool, led: Led, now: Time): Led {
    Led(true, !repeated, if repeated then led.off else now + LED_PULSE_US)
  }

  /** Receiving a command, before it is acted upon. */
  function Count(r: Remote, c: Command): Remote {
    var s := r.context.stats;
    r.(rxValid := Inc(r.rxValid),
       context := r.context.(stats := s.(received := Inc(s.received)), seen := true, lastCommand := c.command))
  }

  function Act(r: Remote, c: Command, now: Time): Remote {
    if c.command == PING then
      r.(led := LedAfter(Repeated(r, c), r.led, now),
         power := if Repeated(r, c) && r.power < 2 then r.power + 1 else r.power,
         context := r.context.(pingSeq := ToUint8(c.argument)))
    else if c.command == MOVE then r.(context := r.context.(moveValue := c.argument))
    else if c.command == STOP then r.(context := r.context.(moveValue := 0))
    else r
  }

  /** The status reported by GETSTAT: milliseconds since boot wrap at 32 bits before they become seconds. */
  function CurrentStatus(r: Remote, now: Time): Status {
    Status(r.context.moveValue, Wrap32(now / 1000) / 1000, r.context.stats.received, r.context.lastCommand, r.power)
  }

  /** The answer a command gets, if it is a known one. */
  function Reply(r: Remote, id: uint8, c: Command, now: Time): Option<Response> {
    if c.command == GETSTAT then Some(Response(id, GETSTAT, GETSTAT_SIZE, StatusData(CurrentStatus(r, now))))
    else if c.command == GETVER then Some(Response(id, GETVER, 2, [FIRMWARE_MAJOR, FIRMWARE_MINOR]))
    else if c.command in {PING, MOVE, STOP} then Some(Response(id, c.command, c.argument, []))
    else None
  }

  function ReplyPacket(r: Response): PacketBytes
    requires |r.data| <= DATA_MAX
  {
    if CarriesData(r.command) then DataPacket(r.sourceId, r.command, r.data)
    else AckPacket(r.sourceId, r.command, r.argument)
  }

  function Transmitted(r: Remote, report: TxReport): Remote {
    var s := CountTransmit(r.context.stats, report);
    r.(context := r.context.(
         connected := report.ok,
         stats := if report.ok then s else s.(responseTxFailed := Inc(s.responseTxFailed))))
  }

  function Handle(r: Remote, id: uint8, c: Command, now: Time, report: TxReport): Remote {
    var acted := Act(Count(r, c), c, now);
    if Reply(acted, id, c, now).Some? then Transmitted(acted, report) else acted
  }

  function ApplyEvent(r: Remote, id: uint8, e: Event): Remote {
    match e
    case Hear(packet, now, report) =>
      var c := DecodedCommand(packet);
      if c.None? then r.(rxInvalid := Inc(r.rxInvalid)) else Handle(r, id, c.value, now, report)
    case Service(now) =>
      if r.led.pulsing && now >= r.led.off then r.(led := r.led.(on := false, pulsing := false)) else r
    case SetPower(level) => r.(power := level)
    case ResetCounters => r.(rxValid := 0, rxInvalid := 0, context := r.context.(stats := NO_STATISTICS))
  }

  function RunEvents(r: Remote, id: uint8, events: seq<Event>): Remote {
    if events == [] then r else ApplyEvent(RunEvents(r, id, events[..|events| - 1]), id, events[|events| - 1])
  }

  /** What the base decodes from the packet sent is the answer itself. */
  lemma ReplyDecodes(r: Remote, id: uint8, c: Command, now: Time)
    requires 1 <= id <= 16 && Reply(r, id, c, now).Some?
    ensures var reply := Reply(r, id, c, now).value;
            |reply.data| <= DATA_MAX && DecodedResponse(ReplyPacket(reply)) == Some(reply)
  {
    var reply := Reply(r, id, c, now).value;
    if CarriesData(c.command) {
      DataRoundTrip(id, c.command, reply.data);
    } else {
      AckRoundTrip(id, c.command, c.argument);
    }
  }

  /** What the base believes of a remote's movement and, once reported, of its status. */
  predicate BelievesMovement(c: Context, r: Remote) {
    c.moveValue == r.context.moveValue
  }

  predicate BelievesStatus(c: Context, r: Remote, now: Time) {
    && c.statusValid && c.lastCommand == r.context.lastCommand && c.reportedTxPower == r.power
    && c.reportedReceived == r.context.stats.received && c.reportedUptimeS == Wrap32(now / 1000) / 1000
  }

  /**
   * A pending command heard by the remote and its answer heard by the base: the command completes, and what
   * the base then believes of the remote is so.
   */
  lemma ExchangeAgrees(c: Context, r: Remote, id: uint8, now: Time, report: TxReport, later: Time)
    requires c.pending.waiting && c.pending.command.command in {MOVE, STOP, GETSTAT, GETVER, PING}
    ensures var command := c.pending.command;
            var acted := Act(Count(r, command), command, now);
            var reply := Reply(acted, id, command, now);
            var heard := Handle(r, id, command, now, report);
            && reply.Some?
            && var d := RemoteContext.Apply(c, Receive(reply.value, later));
               && !d.pending.waiting && d.connected
               && d.stats.acked == Inc(c.stats.acked) && d.stats.unexpected == c.stats.unexpected
               && (command.command in {MOVE, STOP, GETSTAT} ==> BelievesMovement(d, heard))
               && (command.command == GETSTAT ==> BelievesStatus(d, heard, now))
               && (command.command == PING ==> d.pingSeq == (c.pingSeq + 1) % 0x100)
  {
    var command := c.pending.command;
    var acted := Act(Count(r, command), command, now);
    StatusRoundTrip(CurrentStatus(acted, now));
    TransmittedKeeps(acted, report);
  }

  lemma TransmittedKeeps(r: Remote, report: TxReport)
    ensures var t := Transmitted(r, report);
            && t.power == r.power && t.context.moveValue == r.context.moveValue
            && t.context.lastCommand == r.context.lastCommand && t.context.stats.received == r.context.stats.received
  {
  }

  // ---------------------------------------------------------------------------
  // What is counted, remembered and answered
  // ---------------------------------------------------------------------------

  /** What is counted since the last reset: packets by whether they decode, answers by how their transmission went. */
  datatype Kind = Decoded | Undecoded | Acknowledged | Unacknowledged

  function DecodedIn(e: Event): Option<Command> {
    if e.Hear? then DecodedCommand(e.packet) else None
  }

  predicate IsAnswered(c: Command) {
    c.command in {0x01, 0x02, 0x03, 0x0A, 0x0B}
  }

  predicate Counts(kind: Kind, e: Event) {
    var c := DecodedIn(e);
    match kind
    case Decoded => c.Some?
    case Undecoded => e.Hear? && c.None?
    case Acknowledged => c.Some? && IsAnswered(c.value) && e.report.ok
    case Unacknowledged => c.Some? && IsAnswered(c.value) && !e.report.ok
  }

  function Tally(kind: Kind, events: seq<Event>): nat {
    if events == [] then 0
    else
      var n := |events| - 1;
      if events[n].ResetCounters? then 0 else Tally(kind, events[..n]) + One(Counts(kind, events[n]))
  }

  function Tallied(kind: Kind, r: Remote): uint32 {
    match kind
    case Decoded => r.rxValid
    case Undecoded => r.rxInvalid
    case Acknowledged => r.context.stats.txOk
    case Unacknowledged => r.context.stats.txFailed
  }

  /** Two counters have a second copy: the commands received, and the answers that failed. */
  predicate CopiesAgree(r: Remote) {
    r.context.stats.received == r.rxValid && r.context.stats.responseTxFailed == r.context.stats.txFailed
  }

  /** The counter stands at n, but for so many turns. */
  predicate TalliedBy(kind: Kind, r: Remote, n: nat, turns: int) {
    Tallied(kind, r) == n - 0x1_0000_0000 * turns
  }

  lemma TallyStep(kind: Kind, r: Remote, id: uint8, e: Event)
    requires !e.ResetCounters?
    ensures var d := ApplyEvent(r, id, e);
            Tallied(kind, d) == if Counts(kind, e) then Inc(Tallied(kind, r)) else Tallied(kind, r)
  {
  }

  lemma TalliedStep(kind: Kind, r: Remote, id: uint8, e: Event, n: nat, turns: int) returns (next: int)
    requires !e.ResetCounters? && TalliedBy(kind, r, n, turns)
    ensures TalliedBy(kind, ApplyEvent(r, id, e), n + One(Counts(kind, e)), next)
  {
    TallyStep(kind, r, id, e);
    IncIs(Tallied(kind, r));
    next := if Counts(kind, e) && Tallied(kind, r) == 0xFFFF_FFFF then turns + 1 else turns;
  }

  lemma {:induction false} TallyTurns(kind: Kind, id: uint8, events: seq<Event>) returns (turns: int)
    ensures TalliedBy(kind, RunEvents(NEW_REMOTE, id, events), Tally(kind, events), turns)
  {
    if events == [] {
      return 0;
    }
    var n := |events| - 1;
    turns := TallyTurns(kind, id, events[..n]);
    if events[n].ResetCounters? {
      turns := 0;
    } else {
      var r := RunEvents(NEW_REMOTE, id, events[..n]);
      turns := TalliedStep(kind, r, id, events[n], Tally(kind, events[..n]), turns);
    }
  }

  /** On every run each counter of the remote counts what it is for, modulo 2^32. */
  lemma RemoteCounts(kind: Kind, id: uint8, events: seq<Event>)
    ensures Same32(Tallied(kind, RunEvents(NEW_REMOTE, id, events)), Tally(kind, events))
  {
    var turns := TallyTurns(kind, id, events);
    SameBy(Tallied(kind, RunEvents(NEW_REMOTE, id, events)), Tally(kind, events), -turns);
  }

  lemma CopiesStep(r: Remote, id: uint8, e: Event)
    requires CopiesAgree(r)
    ensures CopiesAgree(ApplyEvent(r, id, e))
  {
    if e.Hear? && DecodedCommand(e.packet).Some? {
      HandleCopies(r, id, DecodedCommand(e.packet).value, e.now, e.report);
    }
  }

  lemma HandleCopies(r: Remote, id: uint8, c: Command, now: Time, report: TxReport)
    requires CopiesAgree(r)
    ensures CopiesAgree(Handle(r, id, c, now, report))
  {
    var acted := Act(Count(r, c), c, now);
    assert CopiesAgree(acted);
    assert CopiesAgree(Transmitted(acted, report));
  }

  lemma {:induction false} CopiesAlwaysAgree(id: uint8, events: seq<Event>)
    ensures CopiesAgree(RunEvents(NEW_REMOTE, id, events))
  {
    if events != [] {
      var n := |events| - 1;
      CopiesAlwaysAgree(id, events[..n]);
      CopiesStep(RunEvents(NEW_REMOTE, id, events[..n]), id, events[n]);
    }
  }

  /** The commands heard on a run. */
  function HeardOn(events: seq<Event>): seq<Command> {
    if events == [] then []
    else
      var n := |events| - 1;
      HeardOn(events[..n]) + match DecodedIn(events[n]) case Some(c) => [c] case None => []
  }

  /** What is remembered of the commands heard: the last one, the last order, and the last ping. */
  datatype Memory = Memory(last: uint8, movement: int8, pingSeq: uint8)

  function Remembered(commands: seq<Command>): Memory {
    if commands == [] then Memory(0, 0, 255)
    else
      var m, c := Remembered(commands[..|commands| - 1]), commands[|commands| - 1];
      Memory(c.command,
             if c.command == 0x0A then c.argument else if c.command == 0x0B then 0 else m.movement,
             if c.command == 0x02 then (c.argument as int) % 256 else m.pingSeq)
  }

  lemma RememberStep(r: Remote, id: uint8, e: Event)
    ensures var d := ApplyEvent(r, id, e);
            match DecodedIn(e)
            case None => d.context.lastCommand == r.context.lastCommand && d.context.moveValue == r.context.moveValue
                         && d.context.pingSeq == r.context.pingSeq
            case Some(c) =>
              && d.context.lastCommand == c.command
              && d.context.moveValue == (if c.command == 0x0A then c.argument
                                         else if c.command == 0x0B then 0 else r.context.moveValue)
              && d.context.pingSeq == if c.command == 0x02 then (c.argument as int) % 256 else r.context.pingSeq
  {
  }

  /** On every run the remote remembers the last command, the order in force and the last ping it has heard. */
  lemma {:induction false} RemoteRemembers(id: uint8, events: seq<Event>)
    ensures var c := RunEvents(NEW_REMOTE, id, events).context;
            Remembered(HeardOn(events)) == Memory(c.lastCommand, c.moveValue, c.pingSeq)
  {
    if events != [] {
      var n := |events| - 1;
      RemoteRemembers(id, events[..n]);
      RememberStep(RunEvents(NEW_REMOTE, id, events[..n]), id, events[n]);
      var before, c := HeardOn(events[..n]), DecodedIn(events[n]);
      if c.Some? {
        assert (before + [c.value])[..|before|] == before;
      } else {
        assert before + [] == before;
      }
    }
  }

  /** Whether the last answer sent was acknowledged. */
  function LastAcknowledged(events: seq<Event>): bool {
    if events == [] then false
    else
      var n := |events| - 1;
      var c := DecodedIn(events[n]);
      if c.Some? && IsAnswered(c.value) then events[n].report.ok else LastAcknowledged(events[..n])
  }

  lemma FlagStep(r: Remote, id: uint8, e: Event)
    ensures var d, c := ApplyEvent(r, id, e).context, DecodedIn(e);
            && d.connected == (if c.Some? && IsAnswered(c.value) then e.report.ok else r.context.connected)
            && d.seen == (r.context.seen || c.Some?)
  {
  }

  /** On every run the remote is connected as its last answer went, and has seen the base from the first command on. */
  lemma {:induction false} RemoteFlags(id: uint8, events: seq<Event>)
    ensures var c := RunEvents(NEW_REMOTE, id, events).context;
            c.connected == LastAcknowledged(events) && c.seen == (HeardOn(events) != [])
  {
    if events != [] {
      var n := |events| - 1;
      RemoteFlags(id, events[..n]);
      FlagStep(RunEvents(NEW_REMOTE, id, events[..n]), id, events[n]);
    }
  }

  /** What the base decodes from the answer to each command, the firmware version and the status included. */
  lemma AnswersSay(r: Remote, id: uint8, c: Command, now: Time)
    requires 1 <= id <= 16 && c.command < 0xF0
    ensures var sent := ReplyTo(r, id, CommandPacket(c), now);
            var after := Act(Count(r, c), c, now);
            && (sent != [] <==> IsAnswered(c)) && |sent| <= 1
            && (sent != [] ==>
                  DecodedResponse(sent[0]) == Some(
                    if c.command == 0x01 then
                      Response(id, 0x01, 11, StatusData(Status(after.context.moveValue, Wrap32(now / 1000) / 1000,
                                                               Inc(r.context.stats.received), 0x01, r.power)))
                    else if c.command == 0x03 then Response(id, 0x03, 2, [0, 2])
                    else Response(id, c.command, c.argument, [])))
  {
    CommandRoundTrip(c);
    var after := Act(Count(r, c), c, now);
    if IsAnswered(c) {
      ReplyDecodes(after, id, c, now);
    }
  }

  // ---------------------------------------------------------------------------
  // Repeated pings
  // ---------------------------------------------------------------------------

  predicate IsPing(e: Event) {
    e.Hear? && DecodedCommand(e.packet).Some? && DecodedCommand(e.packet).value.command == PING
  }

  predicate IsRepeat(r: Remote, e: Event) {
    IsPing(e) && Repeated(r, DecodedCommand(e.packet).value)
  }

  /** Events among which every ping repeats the last one and the console leaves the power alone. */
  predicate OnlyRepeats(r: Remote, id: uint8, events: seq<Event>) {
    forall k :: 0 <= k < |events| ==>
      !events[k].SetPower? && (IsPing(events[k]) ==> IsRepeat(RunEvents(r, id, events[..k]), events[k]))
  }

  function Pings(events: seq<Event>): nat {
    if events == [] then 0 else Pings(events[..|events| - 1]) + if IsPing(events[|events| - 1]) then 1 else 0
  }

  /** All that an event can do to the power, the LED and the remembered sequence. */
  lemma EventEffect(r: Remote, id: uint8, e: Event)
    ensures var d := ApplyEvent(r, id, e);
            if IsPing(e) then
              && d.context.pingSeq == ToUint8(DecodedCommand(e.packet).value.argument)
              && d.led == LedAfter(IsRepeat(r, e), r.led, e.now)
              && (IsRepeat(r, e) ==> d.led == Led(true, false, r.led.off))
              && d.power == (if IsRepeat(r, e) && r.power < 2 then r.power + 1 else r.power)
            else
              && d.context.pingSeq == r.context.pingSeq
              && d.led == (if e.Service? && r.led.pulsing && e.now >= r.led.off
                           then r.led.(on := false, pulsing := false) else r.led)
              && (!e.SetPower? ==> d.power == r.power)
  {
    if e.Hear? && DecodedCommand(e.packet).Some? {
      var c := DecodedCommand(e.packet).value;
      assert Count(r, c).led == r.led && Count(r, c).power == r.power;
      assert Repeated(Count(r, c), c) == Repeated(r, c);
    }
  }

  predicate Held(led: Led) {
    led.on && !led.pulsing
  }

  /**
   * After n repeats the power has climbed n levels but never past 2, and a lit LED that is not pulsing
   * stays lit; any repeat leaves it so.
   */
  lemma {:induction false} RepeatsClimbAndHold(r: Remote, id: uint8, events: seq<Event>)
    requires OnlyRepeats(r, id, events)
    ensures Climbed(r, RunEvents(r, id, events), Pings(events))
  {
    if events != [] {
      var n := |events| - 1;
      assert forall k :: 0 <= k < n ==> events[..n][..k] == events[..k];
      RepeatsClimbAndHold(r, id, events[..n]);
      ClimbStep(r, RunEvents(r, id, events[..n]), id, Pings(events[..n]), events[n]);
    }
  }

  predicate Climbed(r: Remote, d: Remote, n: nat) {
    && d.power == (if r.power >= 2 then r.power else if r.power + n < 2 then r.power + n else 2)
    && (n > 0 || Held(r.led) ==> Held(d.led))
    && d.context.pingSeq == r.context.pingSeq
  }

  lemma ClimbStep(r: Remote, d: Remote, id: uint8, n: nat, e: Event)
    requires Climbed(r, d, n) && !e.SetPower? && (IsPing(e) ==> IsRepeat(d, e))
    ensures Climbed(r, ApplyEvent(d, id, e), n + if IsPing(e) then 1 else 0)
  {
    EventEffect(d, id, e);
  }

  /** The LED during the pulse started at a given time. */
  predicate Pulse(led: Led, started: Time, lit: bool) {
    led == Led(lit, lit, started + 100_000)
  }

  predicate StillLit(events: seq<Event>, started: Time) {
    forall e :: e in events && e.Service? ==> e.now < started + 100_000
  }

  /** A new sequence number lights the LED until it is first serviced 100 ms later, unless another ping intervenes. */
  lemma {:induction false} FreshPingPulses(r: Remote, id: uint8, ping: Event, events: seq<Event>)
    requires IsPing(ping) && !IsRepeat(r, ping)
    requires forall e :: e in events ==> !IsPing(e)
    ensures Pulse(RunEvents(ApplyEvent(r, id, ping), id, events).led, ping.now, StillLit(events, ping.now))
  {
    EventEffect(r, id, ping);
    if events != [] {
      var n := |events| - 1;
      FreshPingPulses(r, id, ping, events[..n]);
      EventEffect(RunEvents(ApplyEvent(r, id, ping), id, events[..n]), id, events[n]);
      assert events == events[..n] + [events[n]];
    }
  }

  // ---------------------------------------------------------------------------
  // The object
  // ---------------------------------------------------------------------------

  function Received(arrivals: seq<(PacketBytes, Time, TxReport)>): (events: seq<Event>)
    ensures |events| == |arrivals|
  {
    seq(|arrivals|, i requires 0 <= i < |arrivals| => Hear(arrivals[i].0, arrivals[i].1, arrivals[i].2))
  }

  /** The packets put on the air while the arrivals are handled. */
  function Replies(r: Remote, id: uint8, arrivals: seq<(PacketBytes, Time, TxReport)>): seq<PacketBytes> {
    if arrivals == [] then []
    else
      var n := |arrivals| - 1;
      Replies(r, id, arrivals[..n]) +
      ReplyTo(RunEvents(r, id, Received(arrivals[..n])), id, arrivals[n].0, arrivals[n].1)
  }

  function ReplyTo(r: Remote, id: uint8, packet: PacketBytes, now: Time): seq<PacketBytes> {
    var c := DecodedCommand(packet);
    if c.None? then []
    else
      var reply := Reply(Act(Count(r, c.value), c.value, now), id, c.value, now);
      if reply.None? then [] else [ReplyPacket(reply.value)]
  }

  lemma OneMoreArrival(r: Remote, id: uint8, arrivals: seq<(PacketBytes, Time, TxReport)>, i: nat)
    requires i < |arrivals|
    ensures var before, (packet, now, report) := RunEvents(r, id, Received(arrivals[..i])), arrivals[i];
            && RunEvents(r, id, Received(arrivals[..i + 1])) == ApplyEvent(before, id, Hear(packet, now, report))
            && Replies(r, id, arrivals[..i + 1]) == Replies(r, id, arrivals[..i]) + ReplyTo(before, id, packet, now)
  {
    assert arrivals[..i + 1][..i] == arrivals[..i];
    assert Received(arrivals[..i + 1])[..i] == Received(arrivals[..i]);
  }

  class Station {
    const id: uint8
    var context: Context
    var power: PowerLevel
    var led: Led
    var rxValid: uint32
    var rxInvalid: uint32

    function Value(): Remote
      reads this
    {
      Remote(context, power, led, rxValid, rxInvalid)
    }

    constructor (id: uint8)
      ensures this.id == id && Value() == NEW_REMOTE
    {
      this.id := id;
      context, power, led := NEW_REMOTE.context, 0, NEW_REMOTE.led;
      rxValid, rxInvalid := 0, 0;
    }

    method ProcessCommands(arrivals: seq<(PacketBytes, Time, TxReport)>) returns (sent: seq<PacketBytes>)
      modifies this
      ensures Value() == RunEvents(old(Value()), id, Received(arrivals))
      ensures sent == Replies(old(Value()), id, arrivals)
    {
      sent := [];
      for i := 0 to |arrivals|
        invariant Value() == RunEvents(old(Value()), id, Received(arrivals[..i]))
        invariant sent == Replies(old(Value()), id, arrivals[..i])
      {
        OneMoreArrival(old(Value()), id, arrivals, i);
        var reply := ProcessCommand(arrivals[i].0, arrivals[i].1, arrivals[i].2);
        sent := sent + reply;
      }
      assert arrivals[..|arrivals|] == arrivals;
    }

    /** The body of the receive loop. */
    method ProcessCommand(packet: PacketBytes, now: Time, report: TxReport) returns (sent: seq<PacketBytes>)
      modifies this
      ensures Value() == ApplyEvent(old(Value()), id, Hear(packet, now, report))
      ensures sent == ReplyTo(old(Value()), id, packet, now)
    {
      var decoded := DecodedCommand(packet);
      if decoded.None? {
        rxInvalid := Inc(rxInvalid);
        return [];
      }
      var c := decoded.value;
      rxValid := Inc(rxValid);
      context := context.(stats := context.stats.(received := Inc(context.stats.received)),
                          seen := true, lastCommand := c.command);
      var response := Perform(c, now);
      if response.None? {
        return [];
      }
      context := context.(connected := report.ok, stats := CountTransmit(context.stats, report));
      if !report.ok {
        context := context.(stats := context.stats.(responseTxFailed := Inc(context.stats.responseTxFailed)));
      }
      return [response.value];
    }

    /** The switch over the command: acts on it and builds the packet that answers it. */
    method Perform(c: Command, now: Time) returns (response: Option<PacketBytes>)
      modifies this
      ensures Value() == Act(old(Value()), c, now)
      ensures response == match Reply(Value(), id, c, now)
                          case None => None
                          case Some(r) => Some(ReplyPacket(r))
    {
      if c.command == GETSTAT {
        response := Some(DataPacket(id, GETSTAT, StatusData(CurrentStatus(Value(), now))));
      } else if c.command == GETVER {
        response := Some(DataPacket(id, GETVER, [FIRMWARE_MAJOR, FIRMWARE_MINOR]));
      } else if c.command == PING {
        var pingSeq := ToUint8(c.argument);
        var repeated := pingSeq == context.pingSeq;
        UpdateRangeLed(repeated, now);
        if repeated && power < 2 {
          power := power + 1;
        }
        context := context.(pingSeq := pingSeq);
        response := Some(AckPacket(id, c.command, c.argument));
      } else if c.command == MOVE {
        context := context.(moveValue := c.argument);
        response := Some(AckPacket(id, c.command, c.argument));
      } else if c.command == STOP {
        context := context.(moveValue := 0);
        response := Some(AckPacket(id, c.command, c.argument));
      } else {
        response := None;
      }
    }

    method UpdateRangeLed(repeated: bool, now: Time)
      modifies this`led
      ensures led == LedAfter(repeated, old(led), now)
    {
      led := led.(on := true, pulsing := !repeated);
      if led.pulsing {
        led := led.(off := now + LED_PULSE_US);
      }
    }

    method ServiceRangeLed(now: Time)
      modifies this`led
      ensures Value() == ApplyEvent(old(Value()), id, Service(now))
    {
      if led.pulsing && now >= led.off {
        led := led.(on := false, pulsing := false);
      }
    }
  }
}

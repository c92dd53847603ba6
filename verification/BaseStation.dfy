/** The V1 base: sixteen remote contexts served by one receiver, one timeout sweep and one command path. */
module BaseStation {
  import opened Bits
  import opened Wrappers
  import opened Packet
  import opened Counters
  import opened RemoteContext

  const REMOTES := 16

  /** A packet read from the radio, with the clock reading taken when it was handled. */
  datatype Arrival = Arrival(packet: PacketBytes, now: Time)

  datatype Station = Station(contexts: seq<Context>, rxValid: uint32, rxInvalid: uint32, invalidSource: uint32)

  datatype Event =
    | SendTo(id: uint8, command: Command, started: Time, dated: Time, report: TxReport)
    | Arrive(arrival: Arrival)
    | ExpireAll(clock: seq<Time>)
    | ResetAll

  predicate IsRemote(id: int) {
    1 <= id <= REMOTES
  }

  ghost predicate WellFormed(s: Station) {
    |s.contexts| == REMOTES
  }

  function NewStation(): (s: Station)
    ensures WellFormed(s)
  {
    Station(seq(REMOTES, _ => NEW_CONTEXT), 0, 0, 0)
  }

  function Update(s: Station, id: uint8, step: Step): Station
    requires WellFormed(s) && IsRemote(id)
  {
    s.(contexts := s.contexts[id - 1 := RemoteContext.Apply(s.contexts[id - 1], step)])
  }

  function ApplyEvent(s: Station, e: Event): (t: Station)
    requires WellFormed(s)
    ensures WellFormed(t)
  {
    match e
    case SendTo(id, command, started, dated, report) =>
      if IsRemote(id) then Update(s, id, Send(command, started, dated, report)) else s
    case Arrive(arrival) =>
      (match DecodedResponse(arrival.packet)
       case None => s.(rxInvalid := Inc(s.rxInvalid))
       case Some(r) =>
         var s := s.(rxValid := Inc(s.rxValid));
         if IsRemote(r.sourceId) then Update(s, r.sourceId, Receive(r, arrival.now))
         else s.(invalidSource := Inc(s.invalidSource)))
    case ExpireAll(clock) =>
      if |clock| != REMOTES then s
      else s.(contexts := Expiring(s.contexts, clock, REMOTES))
    case ResetAll => Station(Resetting(s.contexts, REMOTES), 0, 0, 0)
  }

  /** The first n contexts checked against their deadlines. */
  function Expiring(contexts: seq<Context>, clock: seq<Time>, n: nat): (r: seq<Context>)
    requires |contexts| == |clock| == REMOTES && n <= REMOTES
    ensures |r| == REMOTES
    ensures forall i :: 0 <= i < REMOTES ==>
              r[i] == if i < n then RemoteContext.Apply(contexts[i], Expire(clock[i])) else contexts[i]
  {
    seq(REMOTES, i requires 0 <= i < REMOTES =>
      if i < n then RemoteContext.Apply(contexts[i], Expire(clock[i])) else contexts[i])
  }

  function Resetting(contexts: seq<Context>, n: nat): (r: seq<Context>)
    requires |contexts| == REMOTES && n <= REMOTES
    ensures |r| == REMOTES
    ensures forall i :: 0 <= i < REMOTES ==>
              r[i] == if i < n then RemoteContext.Apply(contexts[i], ResetStatistics) else contexts[i]
  {
    seq(REMOTES, i requires 0 <= i < REMOTES =>
      if i < n then RemoteContext.Apply(contexts[i], ResetStatistics) else contexts[i])
  }

  function RunEvents(s: Station, events: seq<Event>): (t: Station)
    requires WellFormed(s)
    ensures WellFormed(t)
  {
    if events == [] then s else ApplyEvent(RunEvents(s, events[..|events| - 1]), events[|events| - 1])
  }

  // ---------------------------------------------------------------------------
  // Isolation
  // ---------------------------------------------------------------------------

  /** The events that concern one remote, as steps of its context. */
  function StepsFor(id: uint8, e: Event): seq<Step>
    requires IsRemote(id)
  {
    match e
    case SendTo(to, command, started, dated, report) =>
      if to == id then [Send(command, started, dated, report)] else []
    case Arrive(arrival) =>
      var decoded := DecodedResponse(arrival.packet);
      if decoded.Some? && decoded.value.sourceId == id then [Receive(decoded.value, arrival.now)] else []
    case ExpireAll(clock) => if |clock| == REMOTES then [Expire(clock[id - 1])] else []
    case ResetAll => [ResetStatistics]
  }

  function History(id: uint8, events: seq<Event>): seq<Step>
    requires IsRemote(id)
  {
    if events == [] then []
    else History(id, events[..|events| - 1]) + StepsFor(id, events[|events| - 1])
  }

  /** Every context evolves as if its remote were the only one. */
  lemma {:induction false} ContextsIsolated(s: Station, events: seq<Event>, id: uint8)
    requires WellFormed(s) && IsRemote(id)
    ensures RunEvents(s, events).contexts[id - 1] == RemoteContext.Run(s.contexts[id - 1], History(id, events))
  {
    if events != [] {
      var n := |events| - 1;
      ContextsIsolated(s, events[..n], id);
      IsolatedStep(RunEvents(s, events[..n]), events[n], id);
      var before, steps := History(id, events[..n]), StepsFor(id, events[n]);
      if steps == [] {
        assert before + steps == before;
      } else {
        assert (before + steps)[..|before|] == before;
      }
    }
  }

  lemma IsolatedStep(s: Station, e: Event, id: uint8)
    requires WellFormed(s) && IsRemote(id)
    ensures var steps, c := StepsFor(id, e), s.contexts[id - 1];
            ApplyEvent(s, e).contexts[id - 1] == if steps == [] then c else RemoteContext.Apply(c, steps[0])
    ensures |StepsFor(id, e)| <= 1
  {
  }

  /** Conservation for each of the sixteen remotes, over every run of the base. */
  lemma StationConserves(events: seq<Event>, id: uint8)
    requires IsRemote(id)
    ensures Balanced(RunEvents(NewStation(), events).contexts[id - 1], PendingAtReset(NEW_CONTEXT, History(id, events)))
  {
    var s, steps := NewStation(), History(id, events);
    assert s.contexts[id - 1] == NEW_CONTEXT;
    ContextsIsolated(s, events, id);
    CommandsConserved(NEW_CONTEXT, steps);
  }

  /** The packets since the last reset that decode as responses, or that do not. */
  function ArrivalsSinceReset(events: seq<Event>, valid: bool): nat {
    if events == [] then 0
    else
      var n := |events| - 1;
      match events[n]
      case ResetAll => 0
      case Arrive(a) =>
        ArrivalsSinceReset(events[..n], valid) + One(DecodedResponse(a.packet).Some? == valid)
      case _ => ArrivalsSinceReset(events[..n], valid)
  }

  /** The counter of valid packets, or of invalid ones. */
  function PacketCounter(s: Station, valid: bool): uint32 {
    if valid then s.rxValid else s.rxInvalid
  }

  /** So many such packets have been counted, and none as coming from an unknown source. */
  predicate PacketsAre(s: Station, valid: bool, n: nat) {
    Same32(PacketCounter(s, valid), n) && s.invalidSource == 0
  }

  /** Every packet is counted valid or invalid as it decodes, and never as coming from an unknown source. */
  lemma {:induction false} PacketsCounted(events: seq<Event>, valid: bool)
    ensures PacketsAre(RunEvents(NewStation(), events), valid, ArrivalsSinceReset(events, valid))
  {
    if events != [] {
      var n := |events| - 1;
      PacketsCounted(events[..n], valid);
      var s := RunEvents(NewStation(), events[..n]);
      if events[n].Arrive? {
        CountPacket(s, events[n].arrival, valid, ArrivalsSinceReset(events[..n], valid));
      } else {
        OthersCountNone(s, events[n]);
      }
    }
  }

  lemma CountPacket(s: Station, a: Arrival, valid: bool, n: nat)
    requires WellFormed(s) && PacketsAre(s, valid, n)
    ensures PacketsAre(ApplyEvent(s, Arrive(a)), valid, n + One(DecodedResponse(a.packet).Some? == valid))
  {
    IncSame(PacketCounter(s, valid), 0, n);
    DecodersDisjoint(a.packet);
  }

  lemma OthersCountNone(s: Station, e: Event)
    requires WellFormed(s) && !e.Arrive?
    ensures var t := ApplyEvent(s, e);
            if e.ResetAll? then t.rxValid == t.rxInvalid == t.invalidSource == 0
            else t.rxValid == s.rxValid && t.rxInvalid == s.rxInvalid && t.invalidSource == s.invalidSource
  {
  }

  // ---------------------------------------------------------------------------
  // The timeout sweep
  // ---------------------------------------------------------------------------

  /** No sweep over the contexts has read for this remote a clock at the time or later. */
  predicate SweepsBefore(events: seq<Event>, id: uint8, time: Time)
    requires IsRemote(id)
  {
    forall e :: e in events && e.ExpireAll? && |e.clock| == REMOTES ==> e.clock[id - 1] < time
  }

  lemma {:induction false} SweepsAreSteps(events: seq<Event>, id: uint8, time: Time)
    requires IsRemote(id)
    ensures SweptBefore(History(id, events), time) <==> SweepsBefore(events, id, time)
    ensures (forall e :: e in events ==> !e.ResetAll?) <==> NoReset(History(id, events))
  {
    if events != [] {
      var n := |events| - 1;
      SweepsAreSteps(events[..n], id, time);
      LastOf(events);
      StepsOfOne(History(id, events[..n]), StepsFor(id, events[n]), time);
      OneSweep(id, events[n], time);
    }
  }

  lemma StepsOfOne(before: seq<Step>, more: seq<Step>, time: Time)
    ensures SweptBefore(before + more, time) <==> SweptBefore(before, time) && SweptBefore(more, time)
    ensures NoReset(before + more) <==> NoReset(before) && NoReset(more)
  {
    assert forall step :: step in before + more <==> step in before || step in more;
  }

  lemma OneSweep(id: uint8, e: Event, time: Time)
    requires IsRemote(id)
    ensures SweptBefore(StepsFor(id, e), time) <==> (e.ExpireAll? && |e.clock| == REMOTES ==> e.clock[id - 1] < time)
    ensures NoReset(StepsFor(id, e)) <==> !e.ResetAll?
  {
    var steps := StepsFor(id, e);
    if steps != [] {
      assert steps[0] in steps && forall step :: step in steps ==> step == steps[0];
    }
  }

  /**
   * Over every run of the base: a command sent to a remote without a pending one, answered by nothing that matches
   * and followed by no other, is pending as sent exactly as long as every sweep since has read for that remote a
   * clock less than 150 ms past the reading its deadline was dated from. Then it has timed out, counted once, and the
   * remote is not connected.
   */
  lemma TimesOutAtDeadline(s: Station, e: Event, after: seq<Event>)
    requires WellFormed(s) && e.SendTo? && IsRemote(e.id) && !s.contexts[e.id - 1].pending.waiting
    requires Undisturbed(ApplyEvent(s, e).contexts[e.id - 1], History(e.id, after))
    ensures var c, d := s.contexts[e.id - 1], RunEvents(ApplyEvent(s, e), after).contexts[e.id - 1];
            PendingOr(c, d, e.command, e.started, e.dated, SweepsBefore(after, e.id, e.dated + 150_000),
                      exists r :: r in after && r.ResetAll?)
  {
    var c, steps := s.contexts[e.id - 1], History(e.id, after);
    ContextsIsolated(ApplyEvent(s, e), after, e.id);
    PendingUntilDeadline(c, e.command, e.started, e.dated, e.report, steps);
    SweepsAreSteps(after, e.id, e.dated + 150_000);
  }

  // ---------------------------------------------------------------------------
  // The object
  // ---------------------------------------------------------------------------

  function Arrivals(arrivals: seq<Arrival>): (events: seq<Event>)
    ensures |events| == |arrivals|
  {
    seq(|arrivals|, i requires 0 <= i < |arrivals| => Arrive(arrivals[i]))
  }

  class Base {
    const contexts: array<Context>
    var rxValid: uint32
    var rxInvalid: uint32
    var invalidSource: uint32

    ghost predicate Valid()
      reads this
    {
      contexts.Length == REMOTES
    }

    ghost function Value(): (s: Station)
      requires Valid()
      reads this, contexts
      ensures WellFormed(s)
    {
      Station(contexts[..], rxValid, rxInvalid, invalidSource)
    }

    constructor ()
      ensures Valid() && fresh(contexts) && Value() == NewStation()
    {
      contexts := new Context[REMOTES](_ => NEW_CONTEXT);
      rxValid, rxInvalid, invalidSource := 0, 0, 0;
    }

    method SendCommand(id: uint8, command: Command, started: Time, dated: Time, report: TxReport)
      returns (frame: Option<PacketBytes>)
      requires Valid()
      modifies this, contexts
      ensures Valid() && Value() == ApplyEvent(old(Value()), SendTo(id, command, started, dated, report))
      ensures frame == if IsRemote(id) && !old(contexts[id - 1]).pending.waiting
                       then Some(CommandPacket(command)) else None
    {
      if !IsRemote(id) || contexts[id - 1].pending.waiting {
        return None;
      }
      var packet := new uint8[PACKET_SIZE];
      EncodeCommand(command, packet);
      var c := contexts[id - 1];
      c := c.(stats := c.stats.(sent := Inc(c.stats.sent)), seen := true,
              pending := Pending(true, command, started, dated + COMMAND_TIMEOUT_US));
      c := c.(stats := CountTransmit(c.stats, report));
      contexts[id - 1] := c;
      return Some(packet[..]);
    }

    method SendPing(id: uint8, started: Time, dated: Time, report: TxReport)
      returns (frame: Option<PacketBytes>)
      requires Valid()
      modifies this, contexts
      ensures Valid()
      ensures IsRemote(id) ==>
                var ping := Command(PING, ToInt8(old(contexts[id - 1]).pingSeq));
                && Value() == ApplyEvent(old(Value()), SendTo(id, ping, started, dated, report))
                && frame == if old(contexts[id - 1]).pending.waiting then None else Some(CommandPacket(ping))
      ensures !IsRemote(id) ==> Value() == old(Value()) && frame == None
    {
      if !IsRemote(id) {
        return None;
      }
      frame := SendCommand(id, Command(PING, ToInt8(contexts[id - 1].pingSeq)), started, dated, report);
    }

    method ProcessResponses(arrivals: seq<Arrival>)
      requires Valid()
      modifies this, contexts
      ensures Valid() && Value() == RunEvents(old(Value()), Arrivals(arrivals))
    {
      for i := 0 to |arrivals|
        invariant Value() == RunEvents(old(Value()), Arrivals(arrivals[..i]))
      {
        ghost var before := Value();
        ProcessResponse(arrivals[i]);
        assert Arrivals(arrivals[..i + 1])[..i] == Arrivals(arrivals[..i]);
      }
      assert arrivals[..|arrivals|] == arrivals;
    }

    /** The body of the receive loop. */
    method ProcessResponse(arrival: Arrival)
      requires Valid()
      modifies this, contexts
      ensures Valid() && Value() == ApplyEvent(old(Value()), Arrive(arrival))
    {
      var decoded := DecodedResponse(arrival.packet);
      if decoded.None? {
        rxInvalid := Inc(rxInvalid);
        return;
      }
      rxValid := Inc(rxValid);
      var r := decoded.value;
      assert IsRemote(r.sourceId);  // so the source's test for an unknown remote never fires
      var c := HandleResponse(contexts[r.sourceId - 1], r, arrival.now);
      contexts[r.sourceId - 1] := c;
    }

    /** The response held against its own context, and against no other. */
    static method HandleResponse(before: Context, r: Response, now: Time) returns (c: Context)
      ensures c == RemoteContext.Apply(before, Receive(r, now))
    {
      c := before.(seen := true);
      if !c.pending.waiting || r.command != c.pending.command.command
         || (r.command != GETSTAT && r.command != GETVER && r.argument != c.pending.command.argument) {
        return c.(stats := c.stats.(unexpected := Inc(c.stats.unexpected)));
      }
      c := c.(stats := RecordResponse(c.stats, Wrap32(now - c.pending.started)),
              connected := true, pending := c.pending.(waiting := false));
      return Absorb(c, r);
    }

    method ProcessTimeouts(clock: seq<Time>)
      requires Valid() && |clock| == REMOTES
      modifies contexts
      ensures Value() == ApplyEvent(old(Value()), ExpireAll(clock))
    {
      for index := 0 to REMOTES
        invariant contexts[..] == Expiring(old(contexts[..]), clock, index)
      {
        var c := contexts[index];
        if c.pending.waiting && clock[index] >= c.pending.deadline {
          contexts[index] := c.(stats := c.stats.(timeouts := Inc(c.stats.timeouts)),
                                connected := false, pending := c.pending.(waiting := false));
        }
      }
    }

    method ResetStatistics()
      requires Valid()
      modifies this, contexts
      ensures Valid() && Value() == ApplyEvent(old(Value()), ResetAll)
    {
      rxValid, rxInvalid, invalidSource := 0, 0, 0;
      for index := 0 to REMOTES
        invariant contexts[..] == Resetting(old(contexts[..]), index)
        invariant rxValid == rxInvalid == invalidSource == 0
      {
        contexts[index] := contexts[index].(stats := NO_STATISTICS);
      }
    }

    method AnyCommandPending() returns (pending: bool)
      requires Valid()
      ensures pending <==> exists c :: c in contexts[..] && c.pending.waiting
    {
      for index := 0 to REMOTES
        invariant forall i :: 0 <= i < index ==> !contexts[i].pending.waiting
      {
        if contexts[index].pending.waiting {
          assert contexts[index] in contexts[..];
          return true;
        }
      }
      return false;
    }
  }
}

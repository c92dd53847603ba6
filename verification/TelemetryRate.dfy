/** The telemetry the base prints over a run of transmissions, reports and `tlm` settings: which, and how much. */
module TelemetryRate {
  import opened Bits
  import opened Wrappers
  import opened Counters
  import opened WireFormat
  import opened Gateway
  import D = Decimation

  /** A telemetry frame read, with the clock readings its forwarding takes, or a setting made. */
  datatype Input = Heard(telemetry: Reply, clock: D.Arrival) | Tuned(setting: D.Setting)

  function InputIn(m: Downlinked): seq<Input> {
    match ParseReply(m.frame)
    case Some(r) => if r.Telemetry? then [Heard(r, m.clock)] else []
    case None => []
  }

  function InputsIn(ms: seq<Downlinked>): seq<Input>
    decreases |ms|
  {
    if ms == [] || ms[0].frame == [] then [] else InputIn(ms[0]) + InputsIn(ms[1..])
  }

  function InputsOf(op: Op): seq<Input> {
    match op
    case Forwarding(s) => [Tuned(s)]
    case Send(delivered, ms) => if delivered then InputsIn(ms) else []
    case ReportStats(delivered, ms) => if delivered then InputsIn(ms) else []
  }

  /** The telemetry read on a run, and the settings made. */
  function Inputs(ops: seq<Op>): seq<Input> {
    if ops == [] then [] else Inputs(ops[..|ops| - 1]) + InputsOf(ops[|ops| - 1])
  }

  function AsEvent(i: Input): D.Event {
    match i
    case Heard(_, clock) => D.Frame(clock)
    case Tuned(s) => D.Setting(s)
  }

  /** What the decimator sees of it. */
  function AsEvents(inputs: seq<Input>): (events: seq<D.Event>)
    ensures |events| == |inputs|
  {
    seq(|inputs|, i requires 0 <= i < |inputs| => AsEvent(inputs[i]))
  }

  lemma AsEventsConcat(a: seq<Input>, b: seq<Input>)
    ensures AsEvents(a + b) == AsEvents(a) + AsEvents(b)
  {
  }

  function Events(ops: seq<Op>): seq<D.Event> {
    AsEvents(Inputs(ops))
  }

  /** A telemetry frame and when it was printed. */
  datatype Told = Told(telemetry: Reply, at: Time)

  /** The telemetry printed. */
  function TelemetryLines(lines: seq<Line>): seq<Told> {
    if lines == [] then []
    else
      var n := |lines| - 1;
      TelemetryLines(lines[..n]) +
      if lines[n].TelemetryLine? then [Told(lines[n].telemetry, lines[n].at)] else []
  }

  /** The telemetry frames read while due, as read. */
  function Passed(d: D.Decimator, inputs: seq<Input>): seq<Told> {
    if inputs == [] then []
    else
      var n := |inputs| - 1;
      Passed(d, inputs[..n]) + PassedBy(D.AfterAll(d, AsEvents(inputs[..n])), inputs[n])
  }

  function PassedBy(d: D.Decimator, i: Input): seq<Told> {
    if i.Heard? && D.Due(d, i.clock) then [Told(i.telemetry, i.clock.now)] else []
  }

  lemma OneInput(d: D.Decimator, inputs: seq<Input>, i: Input)
    ensures D.AfterAll(d, AsEvents(inputs + [i])) == D.AfterEvent(D.AfterAll(d, AsEvents(inputs)), AsEvent(i))
    ensures Passed(d, inputs + [i]) == Passed(d, inputs) + PassedBy(D.AfterAll(d, AsEvents(inputs)), i)
  {
    assert (inputs + [i])[..|inputs|] == inputs;
    assert AsEvents(inputs + [i]) == AsEvents(inputs) + [AsEvent(i)];
    D.OneMore(d, AsEvents(inputs), AsEvent(i));
  }

  lemma OneTelemetryLine(lines: seq<Line>, l: Line)
    ensures TelemetryLines(lines + [l]) ==
            TelemetryLines(lines) + if l.TelemetryLine? then [Told(l.telemetry, l.at)] else []
  {
    assert (lines + [l])[..|lines|] == lines;
  }

  /** From a on, exactly the frames read while due have been printed, as they were read. */
  ghost predicate Thinned(a: Base, b: Base, inputs: seq<Input>) {
    && b.decimator == D.AfterAll(a.decimator, AsEvents(inputs))
    && TelemetryLines(b.lines) == TelemetryLines(a.lines) + Passed(a.decimator, inputs)
  }

  /** A change that prints no telemetry and leaves the decimator alone. */
  lemma ThinnedStill(a: Base, b: Base, c: Base, inputs: seq<Input>)
    requires Thinned(a, b, inputs)
    requires c.decimator == b.decimator && TelemetryLines(c.lines) == TelemetryLines(b.lines)
    ensures Thinned(a, c, inputs)
  {
  }

  lemma SayThins(a: Base, b: Base, l: Line, inputs: seq<Input>)
    requires Thinned(a, b, inputs) && !l.TelemetryLine?
    ensures Thinned(a, Say(b, l), inputs)
  {
    OneTelemetryLine(b.lines, l);
    assert TelemetryLines(b.lines) + [] == TelemetryLines(b.lines);
    ThinnedStill(a, b, Say(b, l), inputs);
  }

  lemma ObserveThins(a: Base, b: Base, state: uint8, inputs: seq<Input>)
    requires Thinned(a, b, inputs)
    ensures Thinned(a, Observe(b, state), inputs) && Observe(b, state).decimator == b.decimator
  {
    var b' := b.(state := Some(state));
    ThinnedStill(a, b, b', inputs);
    if b.state.Some? && b.state.value != state {
      SayThins(a, b', StateEvent(b.state.value, state), inputs);
    }
  }

  lemma MonitorThins(a: Base, b: Base, r: Reply, clock: D.Arrival, inputs: seq<Input>)
    requires r.Telemetry? && Thinned(a, b, inputs)
    ensures Thinned(a, Monitor(b, r, clock), inputs + [Heard(r, clock)])
  {
    ObserveThins(a, b, r.state, inputs);
    ForwardThins(a, Observe(b, r.state), r, clock, inputs);
  }

  lemma ForwardThins(a: Base, b: Base, r: Reply, clock: D.Arrival, inputs: seq<Input>)
    requires Thinned(a, b, inputs)
    ensures var after := b.(decimator := D.After(b.decimator, clock));
            Thinned(a, if D.Due(b.decimator, clock) then Say(after, TelemetryLine(r, clock.now)) else after,
                    inputs + [Heard(r, clock)])
  {
    var passed := Passed(a.decimator, inputs);
    OneInput(a.decimator, inputs, Heard(r, clock));
    OneTelemetryLine(b.lines, TelemetryLine(r, clock.now));
    assert passed + [] == passed;
    Grouped(TelemetryLines(a.lines), passed, [Told(r, clock.now)]);
  }

  lemma NoInput(a: Base, b: Base, inputs: seq<Input>, more: seq<Input>)
    requires Thinned(a, b, inputs) && more == []
    ensures Thinned(a, b, inputs + more)
  {
    assert inputs + more == inputs;
  }

  lemma DispatchThins(a: Base, b: Base, m: Downlinked, inputs: seq<Input>)
    requires Thinned(a, b, inputs)
    ensures Thinned(a, Dispatch(b, m), inputs + InputIn(m))
  {
    var parsed := ParseReply(m.frame);
    if InputIn(m) != [] {
      MonitorThins(a, b, parsed.value, m.clock, inputs);
    } else {
      OtherThins(a, b, m, inputs);
      NoInput(a, Dispatch(b, m), inputs, InputIn(m));
    }
  }

  lemma OtherThins(a: Base, b: Base, m: Downlinked, inputs: seq<Input>)
    requires Thinned(a, b, inputs) && InputIn(m) == []
    ensures Thinned(a, Dispatch(b, m), inputs)
  {
    var parsed := ParseReply(m.frame);
    if m.frame == [] {
    } else if !KnownType(m.frame[0]) {
      SayThins(a, b, UnknownFrame(m.frame[0], |m.frame|), inputs);
    } else if parsed.Some? {
      SayThins(a, b, DataLine(parsed.value), inputs);
    }
  }

  lemma InputsOnce(ms: seq<Downlinked>)
    requires ms != [] && ms[0].frame != []
    ensures InputsIn(ms) == InputIn(ms[0]) + InputsIn(ms[1..])
  {
  }

  lemma {:induction false} DrainThins(a: Base, b: Base, ms: seq<Downlinked>, inputs: seq<Input>)
    requires Thinned(a, b, inputs)
    ensures Thinned(a, Drain(b, ms), inputs + InputsIn(ms))
    decreases |ms|
  {
    if ms == [] || ms[0].frame == [] {
      assert inputs + [] == inputs;
    } else {
      var here, rest := InputIn(ms[0]), InputsIn(ms[1..]);
      DispatchThins(a, b, ms[0], inputs);
      DrainThins(a, Dispatch(b, ms[0]), ms[1..], inputs + here);
      Grouped(inputs, here, rest);
      DrainOnce(b, ms);
      InputsOnce(ms);
    }
  }

  lemma LinkThins(a: Base, b: Base, delivered: bool, inputs: seq<Input>)
    requires Thinned(a, b, inputs)
    ensures Thinned(a, UpdateLink(b, delivered), inputs)
  {
    UpdateLinkFields(b, delivered);
    OneTelemetryLine(b.lines, Edge(delivered));
    assert TelemetryLines(b.lines) + [] == TelemetryLines(b.lines);
    ThinnedStill(a, b, UpdateLink(b, delivered), inputs);
  }

  lemma SendThins(a: Base, b: Base, delivered: bool, ms: seq<Downlinked>, inputs: seq<Input>)
    requires Thinned(a, b, inputs)
    ensures Thinned(a, SendNext(b, delivered, ms), inputs + if delivered then InputsIn(ms) else [])
  {
    var next := b.(sequence := (b.sequence + 1) % 0x100);
    assert SendNext(b, delivered, ms) == Transmit(next, delivered, ms);
    ThinnedStill(a, b, next, inputs);
    TransmitThins(a, next, delivered, ms, inputs);
  }

  lemma TransmitThins(a: Base, b: Base, delivered: bool, ms: seq<Downlinked>, inputs: seq<Input>)
    requires Thinned(a, b, inputs)
    ensures Thinned(a, Transmit(b, delivered, ms), inputs + if delivered then InputsIn(ms) else [])
  {
    LinkThins(a, b, delivered, inputs);
    assert inputs + [] == inputs;
    if delivered {
      DrainThins(a, UpdateLink(b, delivered), ms, inputs);
    }
  }

  lemma ReportThins(a: Base, b: Base, inputs: seq<Input>)
    requires Thinned(a, b, inputs)
    ensures Thinned(a, Report(b), inputs)
  {
    var sent, ok := Wrap32(b.total - b.totalAtReport), Wrap32(b.totalOk - b.okAtReport);
    var c := b.(totalAtReport := b.total, okAtReport := b.totalOk);
    ThinnedStill(a, b, c, inputs);
    SayThins(a, c, RfLine(b.linkUp, sent, ok, Wrap32((sent as int) - ok)), inputs);
  }

  lemma SetThins(a: Base, b: Base, s: D.Setting, inputs: seq<Input>)
    requires Thinned(a, b, inputs)
    ensures Thinned(a, Apply(b, Forwarding(s)), inputs + [Tuned(s)])
  {
    OneInput(a.decimator, inputs, Tuned(s));
    var passed := Passed(a.decimator, inputs);
    assert passed + [] == passed;
  }

  lemma ApplyThins(a: Base, b: Base, op: Op, inputs: seq<Input>)
    requires Thinned(a, b, inputs)
    ensures Thinned(a, Apply(b, op), inputs + InputsOf(op))
  {
    match op
    case Send(delivered, ms) => SendThins(a, b, delivered, ms, inputs);
    case ReportStats(delivered, ms) =>
      ReportThins(a, b, inputs);
      SendThins(a, Report(b), delivered, ms, inputs);
    case Forwarding(s) => SetThins(a, b, s, inputs);
  }

  /** On every run, settings included, the telemetry printed is the telemetry read while due, frame by frame as read. */
  lemma {:induction false} TelemetryThinned(b: Base, ops: seq<Op>)
    ensures Thinned(b, Run(b, ops), Inputs(ops))
  {
    if ops != [] {
      var before, op := ops[..|ops| - 1], ops[|ops| - 1];
      TelemetryThinned(b, before);
      ApplyThins(b, Run(b, before), op, Inputs(before));
    }
  }

  function Times(told: seq<Told>): (times: seq<Time>)
    ensures |times| == |told|
  {
    seq(|told|, i requires 0 <= i < |told| => told[i].at)
  }

  /** When each telemetry line was printed. */
  function TelemetryTimes(lines: seq<Line>): seq<Time> {
    Times(TelemetryLines(lines))
  }

  /** The times are those of the frames the decimator forwards. */
  ghost predicate SameTimes(passed: seq<Told>, marks: seq<D.Mark>) {
    |passed| == |marks| && forall i :: 0 <= i < |passed| ==> passed[i].at == marks[i].at
  }

  lemma SameTimesMore(passed: seq<Told>, marks: seq<D.Mark>, d: D.Decimator, settings: nat, i: Input)
    requires SameTimes(passed, marks)
    ensures SameTimes(passed + PassedBy(d, i), marks + D.Forward(d, settings, AsEvent(i)))
  {
  }

  lemma {:induction false} PassedTimes(d: D.Decimator, inputs: seq<Input>)
    ensures SameTimes(Passed(d, inputs), D.Forwarded(d, AsEvents(inputs)))
  {
    if inputs != [] {
      var before, i := inputs[..|inputs| - 1], inputs[|inputs| - 1];
      PassedTimes(d, before);
      assert inputs == before + [i] && AsEvents(inputs) == AsEvents(before) + [AsEvent(i)];
      OneInput(d, before, i);
      D.OneMore(d, AsEvents(before), AsEvent(i));
      SameTimesMore(Passed(d, before), D.Forwarded(d, AsEvents(before)), D.AfterAll(d, AsEvents(before)),
                    D.Settings(AsEvents(before)), i);
    }
  }

  // ---------------------------------------------------------------------------
  // The rate promised
  // ---------------------------------------------------------------------------

  /** The only settings of the run are one rate and off, and its clock never runs backwards. */
  predicate AtRate(hz: nat, ops: seq<Op>) {
    D.OneRate(hz, Events(ops)) && D.Clocked(Events(ops))
  }

  /** The settings made between the i-th and the j-th telemetry line of a run of a new base. */
  function SettingsBetween(ops: seq<Op>, i: nat, j: nat): int
    requires i <= j < |D.Forwarded(D.NEW_DECIMATOR, Events(ops))|
  {
    var f := D.Forwarded(D.NEW_DECIMATOR, Events(ops));
    f[j].settings - f[i].settings
  }

  lemma NewTimes(ops: seq<Op>)
    ensures var times, f := TelemetryTimes(Run(NEW_BASE, ops).lines), D.Forwarded(D.NEW_DECIMATOR, Events(ops));
            |times| == |f| && forall i :: 0 <= i < |times| ==> times[i] == f[i].at
  {
    TelemetryThinned(NEW_BASE, ops);
    var passed := Passed(D.NEW_DECIMATOR, Inputs(ops));
    assert [] + passed == passed;
    PassedTimes(D.NEW_DECIMATOR, Inputs(ops));
  }

  /** Lines i to j of every run, if less than a second apart with so many settings between, are within the limit. */
  ghost predicate PrintsAtMost(hz: nat, resets: nat, limit: nat) {
    forall ops: seq<Op>, i: nat, j: nat :: AtRate(hz, ops) ==> PrintsWithin(ops, i, j, resets, limit)
  }

  ghost predicate PrintsWithin(ops: seq<Op>, i: nat, j: nat, resets: nat, limit: nat) {
    NewTimes(ops);
    var times := TelemetryTimes(Run(NEW_BASE, ops).lines);
    i <= j < |times| && times[j] - times[i] < D.SECOND_US && SettingsBetween(ops, i, j) <= resets ==>
      j - i + 1 <= limit
  }

  lemma PrintsWithinIff(ops: seq<Op>, i: nat, j: nat, resets: nat, limit: nat)
    requires i <= j < |D.Forwarded(D.NEW_DECIMATOR, Events(ops))|
    ensures PrintsWithin(ops, i, j, resets, limit) <==>
            D.Within(D.Forwarded(D.NEW_DECIMATOR, Events(ops)), i, j, resets, limit)
  {
    NewTimes(ops);
  }

  /** A run that reads one telemetry frame, or makes one setting. */
  function OpFor(e: D.Event): Op {
    match e
    case Setting(s) => Forwarding(s)
    case Frame(a) => Send(true, [Downlinked(EncodeReply(Telemetry(0, 0, false, false)), a)])
  }

  function OpsFor(events: seq<D.Event>): seq<Op> {
    if events == [] then [] else OpsFor(events[..|events| - 1]) + [OpFor(events[|events| - 1])]
  }

  lemma OpRealises(e: D.Event)
    ensures AsEvents(InputsOf(OpFor(e))) == [e]
  {
    if e.Frame? {
      var m := Downlinked(EncodeReply(Telemetry(0, 0, false, false)), e.arrival);
      ReplyRoundTrip(Telemetry(0, 0, false, false));
      assert [m][1..] == [];
      assert InputsIn([m]) == InputIn(m) + InputsIn([]);
    }
  }

  lemma {:induction false} EveryScheduleRuns(events: seq<D.Event>)
    ensures Events(OpsFor(events)) == events
  {
    if events != [] {
      var n := |events| - 1;
      EveryScheduleRuns(events[..n]);
      OpRealises(events[n]);
      var before := OpsFor(events[..n]);
      assert (before + [OpFor(events[n])])[..|before|] == before;
      AsEventsConcat(Inputs(before), InputsOf(OpFor(events[n])));
    }
  }

  /** The limit on the lines printed is that of the decimator, whatever else the base does. */
  lemma PrintsAtMostIff(hz: nat, resets: nat, limit: nat)
    requires 1 <= hz <= 1000
    ensures PrintsAtMost(hz, resets, limit) <==> limit >= D.Limit(hz) + resets
  {
    if limit >= D.Limit(hz) + resets {
      forall ops: seq<Op>, i: nat, j: nat | AtRate(hz, ops) ensures PrintsWithin(ops, i, j, resets, limit) {
        RunWithinLimit(hz, ops, i, j, resets, limit);
      }
    } else {
      var ops, j := LimitRun(hz, resets, limit);
      assert !PrintsWithin(ops, 0, j, resets, limit);
    }
  }

  lemma RunWithinLimit(hz: nat, ops: seq<Op>, i: nat, j: nat, resets: nat, limit: nat)
    requires 1 <= hz <= 1000 && AtRate(hz, ops) && limit >= D.Limit(hz) + resets
    ensures PrintsWithin(ops, i, j, resets, limit)
  {
    NewTimes(ops);
    if i <= j < |D.Forwarded(D.NEW_DECIMATOR, Events(ops))| {
      D.WithinLimit(hz, D.NEW_DECIMATOR, Events(ops), i, j, resets);
      PrintsWithinIff(ops, i, j, resets, limit);
    }
  }

  /** A run that breaks any smaller limit. */
  lemma LimitRun(hz: nat, resets: nat, limit: nat) returns (ops: seq<Op>, j: nat)
    requires 1 <= hz <= 1000 && limit < D.Limit(hz) + resets
    ensures AtRate(hz, ops) && !PrintsWithin(ops, 0, j, resets, limit)
  {
    var events;
    events, j := D.LimitBroken(hz, resets, limit);
    ops := OpsFor(events);
    EveryScheduleRuns(events);
    PrintsWithinIff(ops, 0, j, resets, limit);
  }

  /** At most hz lines in every half-open second: exactly if hz divides 1000 and no setting falls within it. */
  lemma RatePrintedIff(hz: nat, resets: nat)
    requires 1 <= hz <= 1000
    ensures PrintsAtMost(hz, resets, hz) <==> 1000 % hz == 0 && resets == 0
  {
    PrintsAtMostIff(hz, resets, hz);
    D.LimitIsRateIff(hz);
    D.LimitAtLeastRate(hz);
  }
}

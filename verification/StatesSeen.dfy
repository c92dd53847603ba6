/** What the laptop is told of the vehicle, against what the vehicle was: telemetry lines and state events. */
module StatesSeen {
  import opened Bits
  import opened Wrappers
  import opened WireFormat
  import opened Wanderer
  import opened Subsequences
  import opened Dialogue
  import D = Decimation
  import G = Gateway
  import L = DownlinkRuns
  import R = TelemetryRate
  import T = Tactical

  /** The telemetry a frame carries, if any. */
  function TelemetryOf(frame: Bytes): seq<Reply> {
    match ParseReply(frame)
    case Some(r) => if r.Telemetry? then [r] else []
    case None => []
  }

  function Telemetries(frames: seq<Bytes>): seq<Reply> {
    if frames == [] then [] else Telemetries(frames[..|frames| - 1]) + TelemetryOf(frames[|frames| - 1])
  }

  lemma TelemetriesMore(frames: seq<Bytes>, more: seq<Bytes>)
    requires |more| <= 1
    ensures Telemetries(frames + more) == Telemetries(frames) + if more == [] then [] else TelemetryOf(more[0])
  {
    if more == [] {
      assert frames + more == frames;
    } else {
      assert more == [more[0]] && (frames + more)[..|frames|] == frames;
    }
  }

  // ---------------------------------------------------------------------------
  // What telemetry is built from
  // ---------------------------------------------------------------------------

  /** The vehicle at each telemetry frame a step builds. */
  function VehicleIn(s: L.System, step: L.Step): seq<T.Core> {
    match step
    case Process => if s.rx == [] then [] else VehicleFor(s.wanderer, s.rx[0])
    case Glitch => if s.rx == [] then [] else [s.wanderer.core]
    case Repower => [s.wanderer.core]
    case _ => []
  }

  /** Once for a command that is no query, and once for a full FIFO. */
  function VehicleFor(d: Downlink, m: Received): seq<T.Core> {
    var core := Hear(d, m).core;
    (if L.IsQuery(m) then [] else [core]) + if |d.fifo| < TX_DEPTH then [] else [core]
  }

  /** The vehicle at each telemetry frame built on a run; the preload comes first. */
  function Vehicles(steps: seq<L.Step>): seq<T.Core> {
    if steps == [] then [T.INITIAL]
    else
      var n := |steps| - 1;
      Vehicles(steps[..n]) + VehicleIn(L.Run(L.Start(), steps[..n]), steps[n])
  }

  /** The k-th telemetry is numbered k, modulo 256, and tells the state, and whether armed and moving. */
  predicate Tells(r: Reply, k: nat, c: T.Core) {
    && r.Telemetry? && r.sequence == k % 256
    && G.StateNamed(r.state) == Some(c.state)
    && r.armed == (c.state == T.Active || c.state == T.Fallback)
    && r.moving == (c.TargetLeft() != 0 || c.TargetRight() != 0)
  }

  ghost predicate BuiltFrom(d: Downlink, cores: seq<T.Core>) {
    && |d.built| == |cores| && d.sequence == |cores| % 256
    && forall k :: 0 <= k < |cores| ==> FrameTells(d.built[k], k, cores[k])
  }

  predicate FrameTells(frame: Bytes, k: nat, c: T.Core) {
    ParseReply(frame).Some? && Tells(ParseReply(frame).value, k, c)
  }

  lemma FrameBuilt(c: T.Core, sequence: uint8, k: nat)
    requires sequence == k % 256
    ensures FrameTells(Wanderer.TelemetryOf(c, sequence), k, c)
  {
    TelemetryTruthful(c, sequence);
    StateCodeNamed(c.state);
  }

  lemma StateCodeNamed(s: T.State)
    ensures G.StateNamed(StateCode(s)) == Some(s)
  {
  }

  lemma NextNumber(n: nat)
    ensures (n % 256 + 1) % 256 == (n + 1) % 256
  {
  }

  lemma TelemetryBuilt(d: Downlink, cores: seq<T.Core>)
    requires BuiltFrom(d, cores) && d.queue == []
    ensures BuiltFrom(StageNext(d), cores + [d.core]) && StageNext(d).queue == [] && StageNext(d).core == d.core
  {
    var built, more := d.built + [Wanderer.TelemetryOf(d.core, d.sequence)], cores + [d.core];
    FrameBuilt(d.core, d.sequence, |cores|);
    NextNumber(|cores|);
    forall k | 0 <= k < |more| ensures FrameTells(built[k], k, more[k]) {
      if k < |cores| {
        assert FrameTells(d.built[k], k, cores[k]);
      }
    }
  }

  lemma HeardBuilt(d: Downlink, m: Received, cores: seq<T.Core>)
    requires BuiltFrom(d, cores) && d.queue == []
    ensures var h := Hear(d, m);
            && BuiltFrom(StageNext(h), cores + if L.IsQuery(m) then [] else [h.core])
            && StageNext(h).queue == [] && StageNext(h).core == h.core
  {
    L.HearQueues(d, m);
    assert cores + [] == cores;
    if !L.IsQuery(m) {
      TelemetryBuilt(Hear(d, m), cores);
    }
  }

  lemma HandleBuilt(d: Downlink, m: Received, cores: seq<T.Core>)
    requires BuiltFrom(d, cores) && d.queue == []
    ensures BuiltFrom(Handle(d, m), cores + VehicleFor(d, m))
  {
    var h := Hear(d, m);
    var one: seq<T.Core> := if L.IsQuery(m) then [] else [h.core];
    L.HearQueues(d, m);
    HeardBuilt(d, m, cores);
    if |d.fifo| < TX_DEPTH {
      assert VehicleFor(d, m) == one;
    } else {
      TelemetryBuilt(StageNext(h).(fifo := []), cores + one);
      G.Grouped(cores, one, [h.core]);
    }
  }

  lemma StepBuilt(s: L.System, step: L.Step, cores: seq<T.Core>)
    requires BuiltFrom(s.wanderer, cores) && s.wanderer.queue == []
    ensures BuiltFrom(L.Next(s, step).wanderer, cores + VehicleIn(s, step))
  {
    var w := s.wanderer;
    assert cores + [] == cores;
    match step
    case Poll(_, _) =>
    case Process => if s.rx != [] { HandleBuilt(w, s.rx[0], cores); }
    case Glitch => if s.rx != [] { TelemetryBuilt(w.(fifo := []), cores); }
    case Local(_) =>
    case Repower => TelemetryBuilt(w.(fifo := []), cores);
  }

  /** On every run the telemetry built tells, frame by frame, what the vehicle was. */
  lemma {:induction false} BuiltTells(steps: seq<L.Step>)
    ensures BuiltFrom(L.Run(L.Start(), steps).wanderer, Vehicles(steps))
  {
    if steps == [] {
      assert BuiltFrom(NEW_DOWNLINK, []);
      TelemetryBuilt(NEW_DOWNLINK, []);
      assert [] + [T.INITIAL] == [T.INITIAL];
    } else {
      var n := |steps| - 1;
      BuiltTells(steps[..n]);
      L.AlwaysSupplied(steps[..n]);
      StepBuilt(L.Run(L.Start(), steps[..n]), steps[n], Vehicles(steps[..n]));
    }
  }

  // ---------------------------------------------------------------------------
  // What the base reads
  // ---------------------------------------------------------------------------

  /** The replies tell, in order, what the vehicle was at distinct frames among those built. */
  predicate TellInOrder(replies: seq<Reply>, cores: seq<T.Core>) {
    if replies == [] then true
    else if cores == [] then false
    else
      var n, m := |replies| - 1, |cores| - 1;
      (Tells(replies[n], m, cores[m]) && TellInOrder(replies[..n], cores[..m]))
      || TellInOrder(replies, cores[..m])
  }

  lemma {:induction false} SomeBuiltTell(frames: seq<Bytes>, built: seq<Bytes>, cores: seq<T.Core>)
    requires Sub(frames, built) && |built| == |cores|
    requires forall k :: 0 <= k < |cores| ==> FrameTells(built[k], k, cores[k])
    ensures TellInOrder(Telemetries(frames), cores)
    decreases |built|
  {
    if frames != [] {
      var n, m := |frames| - 1, |built| - 1;
      if frames[n] == built[m] && Sub(frames[..n], built[..m]) {
        SomeBuiltTell(frames[..n], built[..m], cores[..m]);
        assert FrameTells(built[m], m, cores[m]);
        var before, reply := Telemetries(frames[..n]), ParseReply(frames[n]).value;
        assert Telemetries(frames) == before + [reply];
        assert (before + [reply])[..|before|] == before;
      } else {
        SomeBuiltTell(frames, built[..m], cores[..m]);
      }
    }
  }

  lemma {:induction false} FewerTell(some: seq<Reply>, all: seq<Reply>, cores: seq<T.Core>)
    requires Sub(some, all) && TellInOrder(all, cores)
    ensures TellInOrder(some, cores)
    decreases |cores| + |all|
  {
    if some != [] {
      var n, m, k := |all| - 1, |cores| - 1, |some| - 1;
      if Tells(all[n], m, cores[m]) && TellInOrder(all[..n], cores[..m]) {
        if some[k] == all[n] && Sub(some[..k], all[..n]) {
          FewerTell(some[..k], all[..n], cores[..m]);
        } else {
          FewerTell(some, all[..n], cores[..m]);
        }
      } else {
        FewerTell(some, all, cores[..m]);
      }
    }
  }

  /** Frames that are no telemetry carry none. */
  lemma {:induction false} TelemetriesSelected(frames: seq<Bytes>)
    ensures Telemetries(frames) == Telemetries(Select(frames, L.IsTelemetry))
  {
    if frames != [] {
      var n := |frames| - 1;
      var kept := Select(frames[..n], L.IsTelemetry);
      TelemetriesSelected(frames[..n]);
      TelemetriesMore(kept, if L.IsTelemetry(frames[n]) then [frames[n]] else []);
      assert !L.IsTelemetry(frames[n]) ==> TelemetryOf(frames[n]) == [];
    }
  }

  /** All the telemetry the base reads on a joint run tells, in order, what the vehicle was. */
  lemma ReadTells(steps: seq<Step>)
    ensures TellInOrder(Telemetries(Read(steps)), Vehicles(LinkSteps(steps)))
  {
    var links, frames := LinkSteps(steps), Read(steps);
    var s := L.Run(L.Start(), links);
    JointRuns(steps);
    ReadInOrder(steps);
    L.AtMostOnceInOrder(links);
    SubSelect(frames, s.dispatched, L.IsTelemetry);
    var told := Select(frames, L.IsTelemetry);
    SubTransitive(told, Select(s.dispatched, L.IsTelemetry), s.wanderer.built);
    BuiltTells(links);
    SomeBuiltTell(told, s.wanderer.built, Vehicles(links));
    TelemetriesSelected(frames);
  }

  // ---------------------------------------------------------------------------
  // What the base makes of it
  // ---------------------------------------------------------------------------

  function StateCodes(replies: seq<Reply>): (codes: seq<uint8>)
    requires forall r :: r in replies ==> r.Telemetry?
    ensures |codes| == |replies|
  {
    seq(|replies|, i requires 0 <= i < |replies| => assert replies[i] in replies; CodeIn(replies[i]))
  }

  function CodeIn(r: Reply): uint8
    requires r.Telemetry?
  {
    r.state
  }

  /** The telemetry among the inputs. */
  function HeardIn(inputs: seq<R.Input>): seq<Reply> {
    if inputs == [] then []
    else
      var n := |inputs| - 1;
      HeardIn(inputs[..n]) + if inputs[n].Heard? then [inputs[n].telemetry] else []
  }

  lemma {:induction false} HeardConcat(a: seq<R.Input>, b: seq<R.Input>)
    ensures HeardIn(a + b) == HeardIn(a) + HeardIn(b)
  {
    if b == [] {
      assert a + b == a && HeardIn(a) + [] == HeardIn(a);
    } else {
      assert (a + b)[..|a + b| - 1] == a + b[..|b| - 1];
      HeardConcat(a, b[..|b| - 1]);
    }
  }

  /** What one operation hears and observes. */
  function HeardBy(op: G.Op): seq<Reply> {
    HeardIn(R.InputsOf(op))
  }

  function ObservedBy(op: G.Op): seq<uint8> {
    if !op.Forwarding? && op.delivered then G.StatesIn(op.downlinked) else []
  }

  lemma OneFrame(m: G.Downlinked)
    ensures R.InputsIn([m]) == R.InputIn(m) && G.StatesIn([m]) == G.StateIn(m)
    ensures HeardIn(R.InputIn(m)) == TelemetryOf(m.frame)
    ensures G.StateIn(m) == match ParseReply(m.frame) case Some(Telemetry(_, state, _, _)) => [state] case _ => []
  {
    assert [m][1..] == [];
    assert R.InputsIn([]) == [] && G.StatesIn([]) == [];
    if R.InputIn(m) != [] {
      assert R.InputIn(m)[..0] == [];
    }
  }

  lemma PollHeard(j: Joint, poll: L.Step, clock: D.Arrival, garbled: bool)
    requires poll.Poll?
    ensures var frames, ms := FramesRead(j, poll, garbled), Downlinked(j, poll, clock, garbled);
            && |frames| <= 1
            && (if Delivers(j, poll) then HeardIn(R.InputsIn(ms)) else []) ==
               (if frames == [] then [] else TelemetryOf(frames[0]))
            && (if Delivers(j, poll) then G.StatesIn(ms) else []) ==
               if frames == [] then [] else G.StateIn(G.Downlinked(frames[0], clock))
  {
    var ms := Downlinked(j, poll, clock, garbled);
    OneFrame(ms[0]);
    assert ms == [ms[0]];
  }

  function Heard(ops: seq<G.Op>): seq<Reply> {
    HeardIn(R.Inputs(ops))
  }

  lemma HeardMore(ops: seq<G.Op>, op: Option<G.Op>)
    ensures var more := match op case Some(o) => [o] case None => [];
            && Heard(ops + more) == Heard(ops) + (match op case Some(o) => HeardBy(o) case None => [])
            && G.Observed(ops + more) == G.Observed(ops) + match op case Some(o) => ObservedBy(o) case None => []
  {
    if op.Some? {
      assert (ops + [op.value])[..|ops|] == ops;
      HeardConcat(R.Inputs(ops), R.InputsOf(op.value));
    } else {
      assert ops + [] == ops;
    }
  }

  /** What a step of the joint run hears and observes is what it reads. */
  lemma StepHeard(j: Joint, step: Step)
    ensures var op, frames := BaseOp(j, step), ReadAt(j, step);
            && |frames| <= 1
            && (match op case Some(o) => HeardBy(o) case None => []) ==
               (if frames == [] then [] else TelemetryOf(frames[0]))
            && (match op case Some(o) => ObservedBy(o) case None => []) == StatesIn(frames)
  {
    match step
    case Transmit(r, outcome, now, clock, garbled) => PollHeard(j, PollFor(j, r, outcome, now), clock, garbled);
    case Report(outcome, now, clock, garbled) => PollHeard(j, PollFor(j, GetPa, outcome, now), clock, garbled);
    case Forward(s) => NothingHeard(s);
    case Remote(_) =>
  }

  lemma NothingHeard(s: D.Setting)
    ensures HeardBy(G.Forwarding(s)) == []
  {
    var inputs := [R.Tuned(s)];
    assert inputs[..0] == [] && HeardIn(inputs[..0]) == [];
  }

  function StatesIn(frames: seq<Bytes>): seq<uint8> {
    if |frames| != 1 then []
    else match ParseReply(frames[0]) case Some(Telemetry(_, state, _, _)) => [state] case _ => []
  }

  ghost predicate ReadsAs(ops: seq<G.Op>, replies: seq<Reply>) {
    && Heard(ops) == replies && (forall r :: r in replies ==> r.Telemetry?)
    && G.Observed(ops) == StateCodes(replies)
  }

  lemma ReadsMore(ops: seq<G.Op>, replies: seq<Reply>, op: Option<G.Op>, frames: seq<Bytes>)
    requires ReadsAs(ops, replies) && |frames| <= 1
    requires (match op case Some(o) => HeardBy(o) case None => []) ==
             if frames == [] then [] else TelemetryOf(frames[0])
    requires (match op case Some(o) => ObservedBy(o) case None => []) == StatesIn(frames)
    ensures ReadsAs(ops + match op case Some(o) => [o] case None => [],
                    replies + if frames == [] then [] else TelemetryOf(frames[0]))
  {
    HeardMore(ops, op);
    CodesMore(replies, if frames == [] then [] else TelemetryOf(frames[0]), StatesIn(frames));
  }

  lemma CodesMore(replies: seq<Reply>, more: seq<Reply>, codes: seq<uint8>)
    requires (forall r :: r in replies ==> r.Telemetry?) && |more| == |codes| <= 1
    requires more != [] ==> more[0].Telemetry? && more[0].state == codes[0]
    ensures forall r :: r in replies + more ==> r.Telemetry?
    ensures StateCodes(replies + more) == StateCodes(replies) + codes
  {
    assert forall r :: r in more ==> r == more[0];
    assert forall r :: r in replies + more ==> r in replies || r in more;
  }

  lemma {:induction false} BaseReads(steps: seq<Step>)
    ensures ReadsAs(BaseOps(steps), Telemetries(Read(steps)))
  {
    if steps != [] {
      var n := |steps| - 1;
      var j := Run(steps[..n]);
      BaseReads(steps[..n]);
      StepHeard(j, steps[n]);
      TelemetriesMore(Read(steps[..n]), ReadAt(j, steps[n]));
      ReadsMore(BaseOps(steps[..n]), Telemetries(Read(steps[..n])), BaseOp(j, steps[n]), ReadAt(j, steps[n]));
    }
  }

  function Replies(told: seq<R.Told>): (replies: seq<Reply>)
    ensures |replies| == |told|
  {
    seq(|told|, i requires 0 <= i < |told| => told[i].telemetry)
  }

  /** What is printed is some of what is heard. */
  lemma {:induction false} PassedAreHeard(d: D.Decimator, inputs: seq<R.Input>)
    ensures Sub(Replies(R.Passed(d, inputs)), HeardIn(inputs))
  {
    if inputs != [] {
      var n := |inputs| - 1;
      PassedAreHeard(d, inputs[..n]);
      var before := R.Passed(d, inputs[..n]);
      var more := R.PassedBy(D.AfterAll(d, R.AsEvents(inputs[..n])), inputs[n]);
      var heard := HeardIn(inputs[..n]);
      assert Replies(before) + [] == Replies(before) && heard + [] == heard && before + [] == before;
      assert Replies(before + more) == Replies(before) + Replies(more);
      if inputs[n].Heard? {
        SubAppend(Replies(before), heard, inputs[n].telemetry);
        assert more != [] ==> Replies(more) == [inputs[n].telemetry];
      }
    }
  }

  /**
   * On every joint run the telemetry lines tell, in order and each with its own number, state, armed and moving, what
   * the vehicle was at distinct telemetry frames it built.
   */
  lemma TelemetryLinesTell(steps: seq<Step>)
    ensures TellInOrder(Replies(R.TelemetryLines(Run(steps).base.lines)), Vehicles(LinkSteps(steps)))
  {
    JointRuns(steps);
    R.TelemetryThinned(G.NEW_BASE, BaseOps(steps));
    var inputs := R.Inputs(BaseOps(steps));
    var passed := R.Passed(D.NEW_DECIMATOR, inputs);
    assert [] + passed == passed;
    PassedAreHeard(D.NEW_DECIMATOR, inputs);
    BaseReads(steps);
    ReadTells(steps);
    FewerTell(Replies(passed), Telemetries(Read(steps)), Vehicles(LinkSteps(steps)));
  }

  // ---------------------------------------------------------------------------
  // The states observed
  // ---------------------------------------------------------------------------

  /** The states the codes stand for, as the base prints them. */
  function Named(codes: seq<uint8>): (names: seq<Option<T.State>>)
    ensures |names| == |codes|
  {
    seq(|codes|, i requires 0 <= i < |codes| => G.StateNamed(codes[i]))
  }

  /** The states of the vehicle. */
  function VehicleStates(cores: seq<T.Core>): (states: seq<Option<T.State>>)
    ensures |states| == |cores|
  {
    seq(|cores|, i requires 0 <= i < |cores| => Some(cores[i].state))
  }

  lemma {:induction false} ToldStates(replies: seq<Reply>, cores: seq<T.Core>)
    requires TellInOrder(replies, cores) && forall r :: r in replies ==> r.Telemetry?
    ensures Sub(Named(StateCodes(replies)), VehicleStates(cores))
    decreases |cores|
  {
    if replies != [] {
      var n, m := |replies| - 1, |cores| - 1;
      var names, states := Named(StateCodes(replies)), VehicleStates(cores);
      assert states[..m] == VehicleStates(cores[..m]);
      if Tells(replies[n], m, cores[m]) && TellInOrder(replies[..n], cores[..m]) {
        ToldStates(replies[..n], cores[..m]);
        assert names[..n] == Named(StateCodes(replies[..n])) && names[n] == states[m];
      } else {
        ToldStates(replies, cores[..m]);
      }
    }
  }

  /** On every joint run the states the base observes are, in order, states the vehicle was in. */
  lemma ObservedWereSo(steps: seq<Step>)
    ensures Sub(Named(G.Observed(BaseOps(steps))), VehicleStates(Vehicles(LinkSteps(steps))))
  {
    BaseReads(steps);
    ReadTells(steps);
    ToldStates(Telemetries(Read(steps)), Vehicles(LinkSteps(steps)));
  }

  /** So the state events the laptop is told are the changes along such a subsequence. */
  lemma EventsWereSo(steps: seq<Step>)
    ensures var observed := G.Observed(BaseOps(steps));
            && G.StateLines(Run(steps).base.lines) == G.Changes(observed)
            && Sub(Named(observed), VehicleStates(Vehicles(LinkSteps(steps))))
  {
    JointRuns(steps);
    G.EventsTold(BaseOps(steps));
    ObservedWereSo(steps);
  }
}

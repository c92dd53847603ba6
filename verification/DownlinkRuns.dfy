/** Whole runs of the downlink: what is staged, what is lost on the way, what the base gets to dispatch. */
module DownlinkRuns {
  import opened Bits
  import opened Counters
  import opened WireFormat
  import opened Wanderer
  import opened Subsequences
  import T = Tactical

  const RX_DEPTH := 3

  /** rx is the Wanderer's receive FIFO, dispatched what the base has taken from its own. */
  datatype System = System(wanderer: Downlink, rx: seq<Received>, dispatched: seq<Bytes>)

  /**
   * What becomes of a command and its ACK payload. A lost ACK leaves the payload spent or, when the radio
   * keeps it for a retransmission that never comes, at the head of the transmit FIFO.
   */
  datatype Outcome = CommandLost | Delivered | AckLost | AckLostPayloadKept

  datatype Step =
    | Poll(command: Received, outcome: Outcome)
    | Process
    | Glitch
    | Local(op: T.Op)
    | Repower

  function Tail<T>(fifo: seq<T>): seq<T> {
    if fifo == [] then [] else fifo[1..]
  }

  function Head<T>(fifo: seq<T>): seq<T> {
    if fifo == [] then [] else fifo[..1]
  }

  /** A full receive FIFO takes no command, and so acknowledges none. */
  predicate Heard(s: System, step: Step) {
    step.Poll? && !step.outcome.CommandLost? && |s.rx| < RX_DEPTH && step.command.payload != []
  }

  function Next(s: System, step: Step): System {
    var w := s.wanderer;
    match step
    case Poll(command, outcome) =>
      if !Heard(s, step) then s
      else
        System(if outcome.AckLostPayloadKept? then w else w.(fifo := Tail(w.fifo)),
               s.rx + [command],
               if outcome.Delivered? then s.dispatched + Head(w.fifo) else s.dispatched)
    case Process => if s.rx == [] then s else s.(wanderer := Handle(w, s.rx[0]), rx := s.rx[1..])
    case Glitch => if s.rx == [] then s else s.(wanderer := Restage(w), rx := [])
    case Local(op) => s.(wanderer := w.(core := T.Apply(w.core, op)))
    case Repower => s.(wanderer := Restage(w).(pa := 0), rx := [])
  }

  function Run(s: System, steps: seq<Step>): System {
    if steps == [] then s else Next(Run(s, steps[..|steps| - 1]), steps[|steps| - 1])
  }

  /** The preload before the radio first listens. */
  function Start(): System {
    System(StageNext(NEW_DOWNLINK), [], [])
  }

  // ---------------------------------------------------------------------------
  // The receive loop
  // ---------------------------------------------------------------------------

  lemma NextRun(s: System, step: Step, steps: seq<Step>)
    ensures Run(s, [step] + steps) == Run(Next(s, step), steps)
    decreases |steps|
  {
    if steps == [] {
      assert [step] + steps == [step] && [step][..0] == [];
      assert Run(s, [step][..0]) == s;
    } else {
      var n := |steps| - 1;
      assert ([step] + steps)[..n + 1] == [step] + steps[..n];
      NextRun(s, step, steps[..n]);
    }
  }

  /** One step for each command read; a zero length, if one is read, is a glitch and ends the loop. */
  function LoopSteps(read: seq<Received>): (steps: seq<Step>)
    decreases |read|
  {
    if read == [] then []
    else if read[0].payload == [] then [Glitch]
    else [Process] + LoopSteps(read[1..])
  }

  /** What the loop reads of the commands waiting: all of them, or some and then a zero length. */
  predicate ReadOf(read: seq<Received>, rx: seq<Received>)
    decreases |read|
  {
    if read == [] then rx == []
    else if read[0].payload == [] then rx != []
    else rx != [] && read[0] == rx[0] && ReadOf(read[1..], rx[1..])
  }

  /** The Wanderer's receive loop is a run of these steps, and leaves no command waiting. */
  lemma {:induction false} LoopIsSteps(s: System, read: seq<Received>)
    requires ReadOf(read, s.rx)
    ensures Run(s, LoopSteps(read)) == System(HandleAll(s.wanderer, read), [], s.dispatched)
    decreases |read|
  {
    if read != [] {
      if read[0].payload == [] {
        NextRun(s, Glitch, []);
        assert [Glitch] + [] == [Glitch];
      } else {
        NextRun(s, Process, LoopSteps(read[1..]));
        LoopIsSteps(Next(s, Process), read[1..]);
      }
    }
  }

  // ---------------------------------------------------------------------------
  // At most once, in order
  // ---------------------------------------------------------------------------

  /** The query a reply frame answers. */
  predicate Replies(r: Request, frame: Bytes) {
    match r
    case GetVersion => frame == EncodeReply(Version(FIRMWARE_MAJOR, FIRMWARE_MINOR))
    case GetStat => |frame| == 6 && frame[0] == REPLY_STAT
    case GetPa => |frame| == 2 && frame[0] == REPLY_PA
    case SetPa(_) => |frame| == 2 && frame[0] == REPLY_PA
    case _ => false
  }

  predicate IsTelemetry(frame: Bytes) {
    frame != [] && frame[0] == REPLY_TELEMETRY
  }

  predicate IsAnswer(frame: Bytes) {
    !IsTelemetry(frame)
  }

  function AnswerFrames(answers: seq<(Request, Bytes)>): (frames: seq<Bytes>)
    ensures |frames| == |answers|
  {
    seq(|answers|, i requires 0 <= i < |answers| => answers[i].1)
  }

  /** The k-th telemetry frame ever built is numbered k, modulo 256. */
  ghost predicate Numbered(d: Downlink) {
    && d.sequence == |d.built| % 0x100
    && forall k :: 0 <= k < |d.built| ==>
         |d.built[k]| == 4 && IsTelemetry(d.built[k]) && d.built[k][1] == k % 0x100
  }

  ghost predicate Answered(answers: seq<(Request, Bytes)>) {
    forall k :: 0 <= k < |answers| ==> Replies(answers[k].0, answers[k].1) && IsAnswer(answers[k].1)
  }

  /** What has been staged comes, in order, from the telemetry built and from the given answers. */
  ghost predicate StagedFrom(staged: seq<Bytes>, built: seq<Bytes>, answers: seq<(Request, Bytes)>) {
    && Sub(Select(staged, IsTelemetry), built)
    && Sub(Select(staged, IsAnswer), AnswerFrames(answers))
  }

  ghost predicate Logged(d: Downlink) {
    d.queue == [] && Numbered(d) && Answered(d.answers) && StagedFrom(d.staged, d.built, d.answers)
  }

  predicate IsQuery(m: Received) {
    m.pipe == RADIO_PIPE && Parse(m.payload).Some? && AsksFor(Parse(m.payload).value)
  }

  predicate AsksFor(r: Request) {
    r.GetVersion? || r.GetStat? || r.GetPa? || r.SetPa?
  }

  /** Reading a command queues exactly one reply, to that command, if it is a query and none otherwise. */
  lemma HearQueues(d: Downlink, m: Received)
    requires d.queue == []
    ensures var h := Hear(d, m);
            && h.staged == d.staged && h.built == d.built && h.sequence == d.sequence && h.fifo == d.fifo
            && (h.queue != [] <==> IsQuery(m))
            && if h.queue == [] then h.answers == d.answers
               else |h.queue| == 1 && h.answers == d.answers + [(Parse(m.payload).value, h.queue[0])]
                    && Replies(Parse(m.payload).value, h.queue[0]) && IsAnswer(h.queue[0])
  {
  }

  lemma AnswerFramesAppend(answers: seq<(Request, Bytes)>, a: (Request, Bytes))
    ensures AnswerFrames(answers + [a]) == AnswerFrames(answers) + [a.1]
  {
  }

  /** A frame staged, or refused, after being built or queued at the end of a log. */
  lemma SelectStaged(staged: seq<Bytes>, log: seq<Bytes>, frame: Bytes, p: Bytes -> bool)
    requires Sub(Select(staged, p), log)
    ensures p(frame) ==> Sub(Select(staged, p), log + [frame]) && Sub(Select(staged + [frame], p), log + [frame])
    ensures !p(frame) ==> Select(staged + [frame], p) == Select(staged, p)
  {
    SelectAppend(staged, frame, p);
    SubAppend(Select(staged, p), log, frame);
    assert Select(staged, p) + [] == Select(staged, p);
  }

  lemma NumberedStep(d: Downlink)
    requires Numbered(d)
    ensures Numbered(d.(sequence := (d.sequence + 1) % 0x100, built := d.built + [TelemetryOf(d.core, d.sequence)]))
  {
    TelemetryNumber(d.core, d.sequence);
    NextNumber(|d.built|);
    var built := d.built + [TelemetryOf(d.core, d.sequence)];
    forall k | 0 <= k < |d.built| ensures built[k] == d.built[k] {
    }
  }

  lemma TelemetryNumber(c: T.Core, sequence: uint8)
    ensures var frame := TelemetryOf(c, sequence);
            |frame| == 4 && IsTelemetry(frame) && frame[1] == sequence
  {
  }

  lemma NextNumber(n: nat)
    ensures (n % 0x100 + 1) % 0x100 == (n + 1) % 0x100
  {
  }

  lemma TelemetryKept(staged: seq<Bytes>, built: seq<Bytes>, frame: Bytes)
    requires Sub(Select(staged, IsTelemetry), built) && IsTelemetry(frame)
    ensures Sub(Select(staged, IsTelemetry), built + [frame])
    ensures Sub(Select(staged + [frame], IsTelemetry), built + [frame])
    ensures Select(staged + [frame], IsAnswer) == Select(staged, IsAnswer)
  {
    SelectStaged(staged, built, frame, IsTelemetry);
    SelectAppend(staged, frame, IsAnswer);
    assert Select(staged, IsAnswer) + [] == Select(staged, IsAnswer);
  }

  lemma AnswerKept(staged: seq<Bytes>, log: seq<Bytes>, frame: Bytes)
    requires Sub(Select(staged, IsAnswer), log) && IsAnswer(frame)
    ensures Sub(Select(staged, IsAnswer), log + [frame])
    ensures Sub(Select(staged + [frame], IsAnswer), log + [frame])
    ensures Select(staged + [frame], IsTelemetry) == Select(staged, IsTelemetry)
  {
    SelectStaged(staged, log, frame, IsAnswer);
    SelectAppend(staged, frame, IsTelemetry);
    assert Select(staged, IsTelemetry) + [] == Select(staged, IsTelemetry);
  }

  lemma LoggedFrom(d: Downlink)
    requires d.queue == [] && Numbered(d)
    requires Answered(d.answers)
    requires Sub(Select(d.staged, IsTelemetry), d.built)
    requires Sub(Select(d.staged, IsAnswer), AnswerFrames(d.answers))
    ensures Logged(d)
  {
  }

  lemma WriteTelemetryLogged(d: Downlink, built: seq<Bytes>, frame: Bytes)
    requires d.queue == [] && Numbered(d) && Answered(d.answers) && d.built == built + [frame] && IsTelemetry(frame)
    requires StagedFrom(d.staged, built, d.answers)
    ensures Logged(Write(d, frame))
  {
    TelemetryKept(d.staged, built, frame);
    LoggedFrom(Write(d, frame));
  }

  lemma StageTelemetryLogged(d: Downlink)
    requires Logged(d)
    ensures Logged(StageNext(d))
  {
    var frame := TelemetryOf(d.core, d.sequence);
    var e := d.(sequence := (d.sequence + 1) % 0x100, built := d.built + [frame]);
    assert StageNext(d) == Write(e, frame);
    NumberedStep(d);
    WriteTelemetryLogged(e, d.built, frame);
  }

  lemma AnsweredStep(answers: seq<(Request, Bytes)>, a: (Request, Bytes))
    requires Answered(answers + [a])
    ensures IsAnswer(a.1)
  {
    assert (answers + [a])[|answers|] == a;
  }

  lemma WriteAnswerLogged(d: Downlink, log: seq<Bytes>, frame: Bytes)
    requires d.queue == [] && Numbered(d) && Answered(d.answers) && AnswerFrames(d.answers) == log + [frame]
    requires Sub(Select(d.staged, IsTelemetry), d.built) && Sub(Select(d.staged, IsAnswer), log) && IsAnswer(frame)
    ensures Logged(Write(d, frame))
  {
    AnswerKept(d.staged, log, frame);
    LoggedFrom(Write(d, frame));
  }

  lemma StageAnswerLogged(d: Downlink, a: (Request, Bytes))
    requires d.queue == [a.1] && Numbered(d) && Answered(d.answers + [a]) && StagedFrom(d.staged, d.built, d.answers)
    ensures Logged(StageNext(d).(answers := d.answers + [a]))
  {
    AnswerFramesAppend(d.answers, a);
    AnsweredStep(d.answers, a);
    var e := d.(queue := [], answers := d.answers + [a]);
    assert StageNext(d).(answers := d.answers + [a]) == Write(e, a.1);
    WriteAnswerLogged(e, AnswerFrames(d.answers), a.1);
  }

  lemma HandleLogged(d: Downlink, m: Received)
    requires Logged(d)
    ensures Logged(Handle(d, m))
  {
    var h := Hear(d, m);
    HearQueues(d, m);
    if h.queue == [] {
      StageTelemetryLogged(h);
    } else {
      var a := (Parse(m.payload).value, h.queue[0]);
      assert h.queue == [a.1];
      StageAnswerLogged(h.(answers := d.answers), a);
      assert StageNext(h.(answers := d.answers)).(answers := h.answers) == StageNext(h);
    }
    if |h.fifo| >= TX_DEPTH {
      StageTelemetryLogged(StageNext(h).(fifo := []));
    }
  }

  lemma NextLogged(s: System, step: Step)
    requires Logged(s.wanderer)
    ensures Logged(Next(s, step).wanderer)
  {
    match step
    case Poll(_, _) =>
    case Process => if s.rx != [] { HandleLogged(s.wanderer, s.rx[0]); }
    case Glitch => StageTelemetryLogged(s.wanderer.(fifo := []));
    case Local(_) =>
    case Repower => StageTelemetryLogged(s.wanderer.(fifo := []));
  }

  ghost predicate InOrder(dispatched: seq<Bytes>, d: Downlink) {
    Sub(dispatched + d.fifo, d.staged)
  }

  lemma WriteInOrder(dispatched: seq<Bytes>, d: Downlink, frame: Bytes)
    requires InOrder(dispatched, d)
    ensures InOrder(dispatched, Write(d, frame))
  {
    SubAppend(dispatched + d.fifo, d.staged, frame);
    assert dispatched + (d.fifo + [frame]) == (dispatched + d.fifo) + [frame];
  }

  lemma StageInOrder(dispatched: seq<Bytes>, d: Downlink)
    requires InOrder(dispatched, d)
    ensures InOrder(dispatched, StageNext(d))
  {
    if d.queue != [] {
      WriteInOrder(dispatched, d.(queue := d.queue[1..]), d.queue[0]);
    } else {
      var frame := TelemetryOf(d.core, d.sequence);
      WriteInOrder(dispatched, d.(sequence := (d.sequence + 1) % 0x100, built := d.built + [frame]), frame);
    }
  }

  lemma RestageInOrder(dispatched: seq<Bytes>, d: Downlink)
    requires InOrder(dispatched, d)
    ensures InOrder(dispatched, Restage(d))
  {
    SubPrefix(dispatched + d.fifo, d.staged, |dispatched|);
    assert (dispatched + d.fifo)[..|dispatched|] == dispatched + [];
    StageInOrder(dispatched, d.(fifo := []));
  }

  /** The head of the FIFO leaves: to the base, into the air, or nowhere at all. */
  lemma PollInOrder(dispatched: seq<Bytes>, d: Downlink)
    requires InOrder(dispatched, d)
    ensures InOrder(dispatched + Head(d.fifo), d.(fifo := Tail(d.fifo)))
    ensures InOrder(dispatched, d.(fifo := Tail(d.fifo)))
  {
    var all := dispatched + d.fifo;
    assert dispatched + Head(d.fifo) + Tail(d.fifo) == all;
    if d.fifo != [] {
      SubDrop(all, d.staged, |dispatched|);
      assert all[..|dispatched|] + all[|dispatched| + 1..] == dispatched + Tail(d.fifo);
    }
  }

  lemma NextInOrder(s: System, step: Step)
    requires s.wanderer.queue == [] && InOrder(s.dispatched, s.wanderer)
    ensures InOrder(Next(s, step).dispatched, Next(s, step).wanderer)
  {
    var w := s.wanderer;
    match step
    case Poll(command, outcome) => PollInOrder(s.dispatched, w);
    case Process =>
      if s.rx != [] {
        HearQueues(w, s.rx[0]);
        StageInOrder(s.dispatched, Hear(w, s.rx[0]));
        RestageInOrder(s.dispatched, StageNext(Hear(w, s.rx[0])));
      }
    case Glitch => RestageInOrder(s.dispatched, w);
    case Local(_) =>
    case Repower => RestageInOrder(s.dispatched, w);
  }

  lemma {:induction false} RunKeeps(steps: seq<Step>)
    ensures var s := Run(Start(), steps);
            Logged(s.wanderer) && InOrder(s.dispatched, s.wanderer)
  {
    if steps == [] {
      StageTelemetryLogged(NEW_DOWNLINK);
      SubSelf(Start().wanderer.fifo);
      assert [] + Start().wanderer.fifo == Start().wanderer.fifo;
    } else {
      var n := |steps| - 1;
      RunKeeps(steps[..n]);
      NextLogged(Run(Start(), steps[..n]), steps[n]);
      NextInOrder(Run(Start(), steps[..n]), steps[n]);
    }
  }

  // ---------------------------------------------------------------------------
  // The queries behind the answers
  // ---------------------------------------------------------------------------

  /** Every command the base has polled with, whatever became of it. */
  function Polled(steps: seq<Step>): seq<Received> {
    if steps == [] then []
    else
      var n := |steps| - 1;
      Polled(steps[..n]) + if steps[n].Poll? then [steps[n].command] else []
  }

  /** The commands the Wanderer has read and handled, in order. */
  function Processed(steps: seq<Step>): seq<Received> {
    if steps == [] then []
    else
      var n := |steps| - 1;
      Processed(steps[..n]) + if steps[n].Process? then Head(Run(Start(), steps[..n]).rx) else []
  }

  function Queries(ms: seq<Received>): seq<Request> {
    if ms == [] then []
    else
      var n := |ms| - 1;
      Queries(ms[..n]) + if IsQuery(ms[n]) then [Parse(ms[n].payload).value] else []
  }

  lemma QueriesAppend(ms: seq<Received>, m: Received)
    ensures Queries(ms + [m]) == Queries(ms) + if IsQuery(m) then [Parse(m.payload).value] else []
  {
    assert (ms + [m])[..|ms|] == ms;
  }

  /** Commands are handled at most once, in the order in which they were polled. */
  lemma {:induction false} ProcessedInOrder(steps: seq<Step>)
    ensures Sub(Processed(steps) + Run(Start(), steps).rx, Polled(steps))
  {
    if steps == [] {
      assert Processed(steps) + Start().rx == [];
    } else {
      var n := |steps| - 1;
      ProcessedInOrder(steps[..n]);
      ProcessedStep(Processed(steps[..n]), Polled(steps[..n]), Run(Start(), steps[..n]), steps[n]);
    }
  }

  lemma ProcessedStep(done: seq<Received>, polled: seq<Received>, s: System, step: Step)
    requires Sub(done + s.rx, polled)
    ensures Sub(done + (if step.Process? then Head(s.rx) else []) + Next(s, step).rx,
                polled + if step.Poll? then [step.command] else [])
  {
    assert done + [] == done && polled + [] == polled;
    match step
    case Poll(command, _) =>
      SubAppend(done + s.rx, polled, command);
      assert done + (s.rx + [command]) == done + s.rx + [command];
    case Process => assert done + Head(s.rx) + Tail(s.rx) == done + s.rx;
    case Local(_) =>
    case _ =>
      SubPrefix(done + s.rx, polled, |done|);
      assert (done + s.rx)[..|done|] == done;
  }

  function RequestsOf(answers: seq<(Request, Bytes)>): (requests: seq<Request>)
    ensures |requests| == |answers|
  {
    seq(|answers|, i requires 0 <= i < |answers| => answers[i].0)
  }

  lemma HandleAnswers(d: Downlink, m: Received)
    requires d.queue == []
    ensures RequestsOf(Handle(d, m).answers) ==
            RequestsOf(d.answers) + if IsQuery(m) then [Parse(m.payload).value] else []
  {
    HearQueues(d, m);
    assert Handle(d, m).answers == Hear(d, m).answers;
  }

  lemma StepAnswers(s: System, step: Step, done: seq<Received>)
    requires s.wanderer.queue == [] && RequestsOf(s.wanderer.answers) == Queries(done)
    ensures RequestsOf(Next(s, step).wanderer.answers) ==
            Queries(done + if step.Process? then Head(s.rx) else [])
  {
    assert done + [] == done;
    if step.Process? && s.rx != [] {
      HandleAnswers(s.wanderer, s.rx[0]);
      QueriesAppend(done, s.rx[0]);
      assert Head(s.rx) == [s.rx[0]];
    } else {
      assert Next(s, step).wanderer.answers == s.wanderer.answers;
    }
  }

  /** Every query handled, and nothing else, is given one answer, in order. */
  lemma {:induction false} QueriesAnswered(steps: seq<Step>)
    ensures RequestsOf(Run(Start(), steps).wanderer.answers) == Queries(Processed(steps))
  {
    if steps != [] {
      var n := |steps| - 1;
      QueriesAnswered(steps[..n]);
      AlwaysSupplied(steps[..n]);
      StepAnswers(Run(Start(), steps[..n]), steps[n], Processed(steps[..n]));
    }
  }

  /** The frames answer distinct requests among those given, in the same order. */
  predicate AnswerInOrder(frames: seq<Bytes>, requests: seq<Request>) {
    if frames == [] then true
    else if requests == [] then false
    else
      var n, m := |frames| - 1, |requests| - 1;
      (Replies(requests[m], frames[n]) && AnswerInOrder(frames[..n], requests[..m]))
      || AnswerInOrder(frames, requests[..m])
  }

  lemma {:induction false} LoggedAnswers(frames: seq<Bytes>, answers: seq<(Request, Bytes)>)
    requires Sub(frames, AnswerFrames(answers)) && Answered(answers)
    ensures AnswerInOrder(frames, RequestsOf(answers))
    decreases |answers|
  {
    if frames != [] {
      var n, m := |frames| - 1, |answers| - 1;
      var logged := AnswerFrames(answers);
      assert logged[..m] == AnswerFrames(answers[..m]) && RequestsOf(answers)[..m] == RequestsOf(answers[..m]);
      if frames[n] == logged[m] && Sub(frames[..n], logged[..m]) {
        LoggedAnswers(frames[..n], answers[..m]);
      } else {
        LoggedAnswers(frames, answers[..m]);
      }
    }
  }

  /**
   * The frames dispatched are frames staged, each at most once and in the same order: the telemetry comes from
   * the consecutively numbered frames built, and each other frame answers a query of its own, handled before,
   * in the order in which the base polled them.
   */
  lemma AtMostOnceInOrder(steps: seq<Step>)
    ensures var s := Run(Start(), steps);
            && Sub(s.dispatched, s.wanderer.staged)
            && Sub(Select(s.dispatched, IsTelemetry), s.wanderer.built) && Numbered(s.wanderer)
            && AnswerInOrder(Select(s.dispatched, IsAnswer), Queries(Processed(steps)))
            && Sub(Processed(steps), Polled(steps))
  {
    var s := Run(Start(), steps);
    RunKeeps(steps);
    DispatchedStaged(s);
    SubSelect(s.dispatched, s.wanderer.staged, IsTelemetry);
    SubTransitive(Select(s.dispatched, IsTelemetry), Select(s.wanderer.staged, IsTelemetry), s.wanderer.built);
    DispatchedAnswers(s);
    LoggedAnswers(Select(s.dispatched, IsAnswer), s.wanderer.answers);
    QueriesAnswered(steps);
    ProcessedInOrder(steps);
    SubPrefix(Processed(steps) + s.rx, Polled(steps), |Processed(steps)|);
    assert (Processed(steps) + s.rx)[..|Processed(steps)|] == Processed(steps);
  }

  lemma DispatchedStaged(s: System)
    requires InOrder(s.dispatched, s.wanderer)
    ensures Sub(s.dispatched, s.wanderer.staged)
  {
    SubPrefix(s.dispatched + s.wanderer.fifo, s.wanderer.staged, |s.dispatched|);
    assert (s.dispatched + s.wanderer.fifo)[..|s.dispatched|] == s.dispatched;
  }

  lemma DispatchedAnswers(s: System)
    requires Logged(s.wanderer) && Sub(s.dispatched, s.wanderer.staged)
    ensures Sub(Select(s.dispatched, IsAnswer), AnswerFrames(s.wanderer.answers))
  {
    SubSelect(s.dispatched, s.wanderer.staged, IsAnswer);
    SubTransitive(Select(s.dispatched, IsAnswer), Select(s.wanderer.staged, IsAnswer),
                  AnswerFrames(s.wanderer.answers));
  }

  // ---------------------------------------------------------------------------
  // Occupancy
  // ---------------------------------------------------------------------------

  ghost predicate Supplied(s: System) {
    && s.wanderer.queue == [] && |s.wanderer.fifo| <= TX_DEPTH && |s.rx| <= RX_DEPTH
    && (s.rx == [] ==> s.wanderer.fifo != [])
  }

  lemma SuppliedStep(s: System, step: Step)
    requires Supplied(s)
    ensures Supplied(Next(s, step))
  {
    if step.Process? && s.rx != [] {
      HearQueues(s.wanderer, s.rx[0]);
    }
  }

  /** The queue is empty between commands, and a drained receiver always has a frame waiting to go out. */
  lemma {:induction false} AlwaysSupplied(steps: seq<Step>)
    ensures Supplied(Run(Start(), steps))
  {
    if steps != [] {
      AlwaysSupplied(steps[..|steps| - 1]);
      SuppliedStep(Run(Start(), steps[..|steps| - 1]), steps[|steps| - 1]);
    }
  }

  predicate NothingKept(steps: seq<Step>) {
    forall step :: step in steps && step.Poll? ==> !step.outcome.AckLostPayloadKept?
  }

  /** Unless the radio keeps a payload, frames staged and commands waiting together never exceed three. */
  lemma {:induction false} AlwaysRoom(steps: seq<Step>)
    requires NothingKept(steps)
    ensures var s := Run(Start(), steps);
            1 <= |s.wanderer.fifo| + |s.rx| <= TX_DEPTH
  {
    if steps != [] {
      var n := |steps| - 1;
      AlwaysRoom(steps[..n]);
      AlwaysSupplied(steps[..n]);
      var s := Run(Start(), steps[..n]);
      if steps[n].Process? && s.rx != [] {
        HearQueues(s.wanderer, s.rx[0]);
      }
    }
  }

  /** The frame a command brings on: the answer to a query, else telemetry of the state it leaves. */
  function Rider(d: Downlink, m: Received): Bytes {
    var h := Hear(d, m);
    if h.queue != [] then h.queue[0] else TelemetryOf(h.core, d.sequence)
  }

  lemma HandleStages(d: Downlink, m: Received)
    requires d.queue == [] && |d.fifo| < TX_DEPTH
    ensures var e := Handle(d, m);
            && e.fifo == d.fifo + [Rider(d, m)] && e.staged == d.staged + [Rider(d, m)]
            && e.queue == [] && e.core == Hear(d, m).core && e.answers == Hear(d, m).answers
  {
    HearQueues(d, m);
  }

  /** A query that finds the FIFO full has its reply dropped for telemetry of the state it leaves. */
  lemma FullFifoLosesAnswer(d: Downlink, m: Received)
    requires d.queue == [] && |d.fifo| >= TX_DEPTH && IsQuery(m)
    ensures var e, telemetry := Handle(d, m), TelemetryOf(Hear(d, m).core, d.sequence);
            e.queue == [] && e.fifo == [telemetry] && e.staged == d.staged + [telemetry]
  {
    HearQueues(d, m);
  }

  ghost predicate AllStaged(d: Downlink) {
    Select(d.staged, IsAnswer) == AnswerFrames(d.answers)
  }

  predicate QueryFindsFull(s: System, step: Step) {
    step.Process? && s.rx != [] && IsQuery(s.rx[0]) && |s.wanderer.fifo| >= TX_DEPTH
  }

  /** The queries handled so far that found the FIFO full. */
  function Losses(steps: seq<Step>): nat {
    if steps == [] then 0
    else
      var n := |steps| - 1;
      Losses(steps[..n]) + if QueryFindsFull(Run(Start(), steps[..n]), steps[n]) then 1 else 0
  }

  /** So many replies have not been staged; with none lost, those staged are those queued. */
  ghost predicate LossesAre(d: Downlink, lost: nat) {
    |d.answers| == |Select(d.staged, IsAnswer)| + lost && (lost == 0 ==> AllStaged(d))
  }

  lemma TelemetryLosesNothing(d: Downlink, e: Downlink, frame: Bytes, lost: nat)
    requires LossesAre(d, lost) && e.answers == d.answers && IsTelemetry(frame)
    requires e.staged == d.staged || e.staged == d.staged + [frame]
    ensures LossesAre(e, lost)
  {
    SelectAppend(d.staged, frame, IsAnswer);
    assert Select(d.staged, IsAnswer) + [] == Select(d.staged, IsAnswer);
  }

  lemma AnswerStagedOrLost(d: Downlink, e: Downlink, a: (Request, Bytes), lost: nat)
    requires LossesAre(d, lost) && e.answers == d.answers + [a] && IsAnswer(a.1)
    ensures e.staged == d.staged + [a.1] ==> LossesAre(e, lost)
    ensures Select(e.staged, IsAnswer) == Select(d.staged, IsAnswer) ==> LossesAre(e, lost + 1)
  {
    SelectAppend(d.staged, a.1, IsAnswer);
    AnswerFramesAppend(d.answers, a);
  }

  lemma NoQueryLoses(d: Downlink, m: Received, lost: nat)
    requires d.queue == [] && LossesAre(d, lost) && !IsQuery(m)
    ensures LossesAre(Handle(d, m), lost)
  {
    var h := Hear(d, m);
    HearQueues(d, m);
    if |d.fifo| < TX_DEPTH {
      TelemetryLosesNothing(d, Handle(d, m), TelemetryOf(h.core, d.sequence), lost);
    } else {
      TelemetryLosesNothing(d, Handle(d, m), TelemetryOf(h.core, (d.sequence + 1) % 0x100), lost);
    }
  }

  lemma QueryLoses(d: Downlink, m: Received, lost: nat)
    requires d.queue == [] && LossesAre(d, lost) && IsQuery(m)
    ensures LossesAre(Handle(d, m), lost + if |d.fifo| >= TX_DEPTH then 1 else 0)
  {
    var h, e := Hear(d, m), Handle(d, m);
    HearQueues(d, m);
    var a := (Parse(m.payload).value, h.queue[0]);
    if |d.fifo| < TX_DEPTH {
      HandleStages(d, m);
    } else {
      FullFifoLosesAnswer(d, m);
      SelectAppend(d.staged, TelemetryOf(h.core, d.sequence), IsAnswer);
      assert Select(d.staged, IsAnswer) + [] == Select(d.staged, IsAnswer);
    }
    AnswerStagedOrLost(d, e, a, lost);
  }

  lemma HandleLoses(d: Downlink, m: Received, lost: nat)
    requires d.queue == [] && LossesAre(d, lost)
    ensures LossesAre(Handle(d, m), lost + if IsQuery(m) && |d.fifo| >= TX_DEPTH then 1 else 0)
  {
    if IsQuery(m) {
      QueryLoses(d, m, lost);
    } else {
      NoQueryLoses(d, m, lost);
    }
  }

  lemma NextLoses(s: System, step: Step, lost: nat)
    requires s.wanderer.queue == [] && LossesAre(s.wanderer, lost)
    ensures LossesAre(Next(s, step).wanderer, lost + if QueryFindsFull(s, step) then 1 else 0)
  {
    var w := s.wanderer;
    match step
    case Poll(_, _) =>
    case Process => if s.rx != [] { HandleLoses(w, s.rx[0], lost); }
    case Glitch => TelemetryLosesNothing(w, Next(s, step).wanderer, TelemetryOf(w.core, w.sequence), lost);
    case Local(_) =>
    case Repower => TelemetryLosesNothing(w, Next(s, step).wanderer, TelemetryOf(w.core, w.sequence), lost);
  }

  lemma StartLosesNothing()
    ensures LossesAre(Start().wanderer, 0)
  {
    assert Start().wanderer.staged[..0] == [];
  }

  /** Exactly the replies to queries that found the FIFO full are never staged. */
  lemma {:induction false} LossesCounted(steps: seq<Step>)
    ensures LossesAre(Run(Start(), steps).wanderer, Losses(steps))
  {
    if steps == [] {
      StartLosesNothing();
    } else {
      var n := |steps| - 1;
      LossesCounted(steps[..n]);
      AlwaysSupplied(steps[..n]);
      NextLoses(Run(Start(), steps[..n]), steps[n], Losses(steps[..n]));
    }
  }

  ghost predicate RoomForAnswers(steps: seq<Step>) {
    forall k :: 0 <= k < |steps| ==> RoomAt(steps, k)
  }

  predicate RoomAt(steps: seq<Step>, k: nat)
    requires k < |steps|
  {
    !QueryFindsFull(Run(Start(), steps[..k]), steps[k])
  }

  /** Every reply queued is staged exactly if no query is handled while the FIFO is full. */
  lemma AllStagedIff(steps: seq<Step>)
    ensures AllStaged(Run(Start(), steps).wanderer) <==> RoomForAnswers(steps)
  {
    LossesCounted(steps);
    NoLossIff(steps);
  }

  lemma {:induction false} NoLossIff(steps: seq<Step>)
    ensures Losses(steps) == 0 <==> RoomForAnswers(steps)
  {
    if steps != [] {
      var n := |steps| - 1;
      NoLossIff(steps[..n]);
      RoomPrefix(steps, n);
    }
  }

  lemma RoomPrefix(steps: seq<Step>, n: nat)
    requires |steps| == n + 1
    ensures RoomForAnswers(steps) <==> RoomForAnswers(steps[..n]) && RoomAt(steps, n)
  {
    forall k | 0 <= k < n ensures RoomAt(steps[..n], k) <==> RoomAt(steps, k) {
      assert steps[..n][..k] == steps[..k];
    }
  }

  /** Unless the radio keeps payloads that does not happen. */
  lemma EveryAnswerStaged(steps: seq<Step>)
    requires NothingKept(steps)
    ensures AllStaged(Run(Start(), steps).wanderer)
  {
    forall k | 0 <= k < |steps| ensures RoomAt(steps, k) {
      AlwaysRoom(steps[..k]);
    }
    AllStagedIff(steps);
  }

  lemma RunMore(steps: seq<Step>, step: Step)
    ensures Run(Start(), steps + [step]) == Next(Run(Start(), steps), step)
  {
    assert (steps + [step])[..|steps|] == steps;
  }

  /** Two commands whose payloads are kept fill the FIFO. */
  lemma FifoFills(nop: Received, q: Received) returns (steps: seq<Step>)
    requires nop.payload == Encode(Nop, 0) && q.payload != []
    ensures var s := Run(Start(), steps);
            s.rx == [q] && s.wanderer.queue == [] && |s.wanderer.fifo| == TX_DEPTH
  {
    var kept := Poll(nop, AckLostPayloadKept);
    var s1 := [] + [kept];
    var s2 := s1 + [Process];
    var s3 := s2 + [kept];
    var s4 := s3 + [Process];
    steps := s4 + [Poll(q, AckLostPayloadKept)];
    RunMore([], kept);
    RunMore(s1, Process);
    HandleStages(Start().wanderer, nop);
    var s := Run(Start(), s2);
    assert s.rx == [] && |s.wanderer.fifo| == 2 && s.wanderer.queue == [];
    RunMore(s2, kept);
    RunMore(s3, Process);
    HandleStages(s.wanderer, nop);
    RunMore(s4, Poll(q, AckLostPayloadKept));
  }

  /** So a run does lose a reply: two commands and a query, all ACKs lost and their payloads kept. */
  lemma AnswerLostOnRun(now: Time) returns (steps: seq<Step>)
    ensures QueryFindsFull(Run(Start(), steps), Process)
    ensures !AllStaged(Run(Start(), steps + [Process]).wanderer)
  {
    var q := Received(RADIO_PIPE, Encode(GetVersion, 2), now);
    ParseIffEncoded(q.payload, GetVersion);
    steps := FifoFills(Received(RADIO_PIPE, Encode(Nop, 0), now), q);
    var more := steps + [Process];
    assert more[..|steps|] == steps;
    assert !RoomAt(more, |steps|);
    AllStagedIff(more);
  }

  // ---------------------------------------------------------------------------
  // Delay
  // ---------------------------------------------------------------------------

  /** Nothing empties the FIFO: no glitch, no repowering, no kept payload. */
  predicate Unflushed(steps: seq<Step>) {
    NothingKept(steps) && forall step :: step in steps ==> !step.Glitch? && !step.Repower?
  }

  /** The commands heard from a system on. */
  function Commands(s: System, steps: seq<Step>): nat {
    if steps == [] then 0
    else
      var n := |steps| - 1;
      Commands(s, steps[..n]) + if Heard(Run(s, steps[..n]), steps[n]) then 1 else 0
  }

  ghost predicate Roomy(s: System) {
    s.wanderer.queue == [] && |s.wanderer.fifo| + |s.rx| <= TX_DEPTH
  }

  /** The FIFO holds what it held and what was staged since, less the frames that have left. */
  predicate Shifted(fifo: seq<Bytes>, from: nat, d: Downlink, left: nat) {
    from <= |d.staged| && left <= |fifo + d.staged[from..]| && d.fifo == (fifo + d.staged[from..])[left..]
  }

  predicate Takes(s: System, step: Step) {
    Heard(s, step) && s.wanderer.fifo != []
  }

  lemma ShiftStep(fifo: seq<Bytes>, from: nat, s: System, step: Step, left: nat)
    requires Roomy(s) && Shifted(fifo, from, s.wanderer, left) && Unflushed([step])
    ensures Roomy(Next(s, step))
    ensures Shifted(fifo, from, Next(s, step).wanderer, if Takes(s, step) then left + 1 else left)
  {
    assert step in [step];
    var all := fifo + s.wanderer.staged[from..];
    if Takes(s, step) {
      assert all[left..][1..] == all[left + 1..];
    } else if step.Process? && s.rx != [] {
      HandleStages(s.wanderer, s.rx[0]);
      ShiftedStaging(fifo, s.wanderer.staged, from, left, Rider(s.wanderer, s.rx[0]));
    }
  }

  /** One frame has left for each command that found any. */
  lemma {:induction false} FifoShifts(s: System, steps: seq<Step>) returns (left: nat)
    requires Roomy(s) && Unflushed(steps)
    ensures Roomy(Run(s, steps)) && Shifted(s.wanderer.fifo, |s.wanderer.staged|, Run(s, steps).wanderer, left)
    ensures left <= Commands(s, steps) && (left >= |s.wanderer.fifo| || left == Commands(s, steps))
  {
    if steps == [] {
      return 0;
    }
    var n := |steps| - 1;
    left := FifoShifts(s, steps[..n]);
    var b := Run(s, steps[..n]);
    assert steps[n] in steps;
    ShiftStep(s.wanderer.fifo, |s.wanderer.staged|, b, steps[n], left);
    if Takes(b, steps[n]) {
      left := left + 1;
    }
  }

  lemma ShiftedStaging(fifo: seq<Bytes>, staged: seq<Bytes>, from: nat, left: nat, frame: Bytes)
    requires from <= |staged| && left <= |fifo + staged[from..]|
    ensures (fifo + (staged + [frame])[from..])[left..] == (fifo + staged[from..])[left..] + [frame]
  {
    assert fifo + (staged + [frame])[from..] == fifo + staged[from..] + [frame];
  }

  /** Every frame in the FIFO has left it once as many commands have been heard as there are frames, at most three. */
  lemma GoneWithinThree(s: System, steps: seq<Step>)
    requires Roomy(s) && Unflushed(steps) && Commands(s, steps) >= |s.wanderer.fifo|
    ensures var fifo, staged, n := Run(s, steps).wanderer.fifo, Run(s, steps).wanderer.staged, |s.wanderer.staged|;
            n <= |staged| && |fifo| <= |staged[n..]| && fifo == staged[n..][|staged[n..]| - |fifo|..]
    ensures |s.wanderer.fifo| <= 3
  {
    var left := FifoShifts(s, steps);
    LaterOnly(s.wanderer.fifo, Run(s, steps).wanderer.staged[|s.wanderer.staged|..], left);
  }

  lemma LaterOnly(fifo: seq<Bytes>, more: seq<Bytes>, left: nat)
    requires |fifo| <= left <= |fifo + more|
    ensures (fifo + more)[left..] == more[left - |fifo|..]
  {
  }

  /** The FIFO holds the frames staged last. */
  predicate Newest(d: Downlink) {
    |d.fifo| <= |d.staged| && d.fifo == d.staged[|d.staged| - |d.fifo|..]
  }

  /** The commands handled from a system on. */
  function Handled(s: System, steps: seq<Step>): nat {
    if steps == [] then 0
    else
      var n := |steps| - 1;
      Handled(s, steps[..n]) + if steps[n].Process? && Run(s, steps[..n]).rx != [] then 1 else 0
  }

  /** One more frame staged, or none when the FIFO is full. */
  predicate StagedOne(d: Downlink, e: Downlink) {
    && Newest(e) && (|d.fifo| <= TX_DEPTH ==> |e.fifo| <= TX_DEPTH)
    && |e.staged| == if |d.fifo| < TX_DEPTH then |d.staged| + 1 else |d.staged|
  }

  lemma WriteNewest(d: Downlink, frame: Bytes)
    requires Newest(d)
    ensures StagedOne(d, Write(d, frame))
  {
  }

  lemma StageNewest(d: Downlink)
    requires Newest(d)
    ensures StagedOne(d, StageNext(d))
  {
    if d.queue != [] {
      var popped := d.(queue := d.queue[1..]);
      WriteNewest(popped, d.queue[0]);
      assert StageNext(d) == Write(popped, d.queue[0]);
    } else {
      var frame := TelemetryOf(d.core, d.sequence);
      var logged := d.(sequence := (d.sequence + 1) % 0x100, built := d.built + [frame]);
      WriteNewest(logged, frame);
      assert StageNext(d) == Write(logged, frame);
    }
  }

  lemma RestageNewest(d: Downlink)
    ensures Newest(Restage(d)) && |Restage(d).staged| == |d.staged| + 1 && |Restage(d).fifo| == 1
  {
    StageNewest(d.(fifo := []));
  }

  /** Full or not, a command handled stages one frame. */
  lemma HandleNewest(d: Downlink, m: Received)
    requires Newest(d) && d.queue == [] && |d.fifo| <= TX_DEPTH
    ensures var e := Handle(d, m);
            Newest(e) && |e.staged| == |d.staged| + 1 && |e.fifo| <= TX_DEPTH && e.queue == []
  {
    var h := Hear(d, m);
    HearQueues(d, m);
    StageNewest(h);
    RestageNewest(StageNext(h));
  }

  ghost predicate Bounded(d: Downlink) {
    d.queue == [] && |d.fifo| <= TX_DEPTH && Newest(d)
  }

  lemma BoundedStep(s: System, step: Step)
    requires Bounded(s.wanderer)
    ensures Bounded(Next(s, step).wanderer)
    ensures |Next(s, step).wanderer.staged| >=
            |s.wanderer.staged| + if step.Process? && s.rx != [] then 1 else 0
  {
    var w := s.wanderer;
    match step
    case Poll(_, _) =>
    case Process => if s.rx != [] { HandleNewest(w, s.rx[0]); }
    case Glitch => RestageNewest(w);
    case Local(_) =>
    case Repower => RestageNewest(w);
  }

  lemma {:induction false} StagedWhenHandled(s: System, steps: seq<Step>)
    requires Bounded(s.wanderer)
    ensures Bounded(Run(s, steps).wanderer)
    ensures |Run(s, steps).wanderer.staged| >= |s.wanderer.staged| + Handled(s, steps)
  {
    if steps != [] {
      var n := |steps| - 1;
      StagedWhenHandled(s, steps[..n]);
      BoundedStep(Run(s, steps[..n]), steps[n]);
    }
  }

  /** The frames in the FIFO that were among the first so many staged. */
  function OldFrames(d: Downlink, before: nat): nat
    requires Newest(d)
  {
    var first := |d.staged| - |d.fifo|;
    if first < before then before - first else 0
  }

  /**
   * On every run, payloads kept and flushes included, the FIFO holds the frames staged last, and of those staged
   * before the last h commands handled at most 3 - h, so none once three have been handled.
   */
  lemma FewOldFrames(steps: seq<Step>, more: seq<Step>)
    ensures var before, s := Run(Start(), steps), Run(Run(Start(), steps), more);
            var h := Handled(before, more);
            && Newest(s.wanderer) && |before.wanderer.staged| + h <= |s.wanderer.staged|
            && OldFrames(s.wanderer, |before.wanderer.staged|) <= if h < 3 then 3 - h else 0
  {
    AlwaysBounded(steps);
    StagedWhenHandled(Run(Start(), steps), more);
  }

  lemma AlwaysBounded(steps: seq<Step>)
    ensures Bounded(Run(Start(), steps).wanderer)
  {
    PreloadBounded(NEW_DOWNLINK);
    StagedWhenHandled(Start(), steps);
  }

  lemma PreloadBounded(d: Downlink)
    requires d.queue == [] && d.fifo == []
    ensures Bounded(StageNext(d))
  {
    StageNewest(d);
  }

  // ---------------------------------------------------------------------------
  // In step
  // ---------------------------------------------------------------------------

  /** A command heard finds the one before it handled, and takes its payload. */
  predicate InStep(s: System, step: Step) {
    Heard(s, step) ==> s.rx == [] && !step.outcome.AckLostPayloadKept?
  }

  predicate Lockstep(steps: seq<Step>) {
    steps == [] ||
    (Lockstep(steps[..|steps| - 1]) && InStep(Run(Start(), steps[..|steps| - 1]), steps[|steps| - 1]))
  }

  /** Either the frame staged last is waiting and nothing else, or it has left and one command waits. */
  predicate OneStaged(s: System) {
    && s.wanderer.queue == [] && s.wanderer.staged != []
    && if s.rx == [] then s.wanderer.fifo == Last(s.wanderer.staged) else |s.rx| == 1 && s.wanderer.fifo == []
  }

  function Last<T>(a: seq<T>): seq<T> {
    if a == [] then [] else [a[|a| - 1]]
  }

  lemma OneStagedStep(s: System, step: Step)
    requires OneStaged(s) && InStep(s, step)
    ensures OneStaged(Next(s, step))
  {
    if step.Process? && s.rx != [] {
      HandleStages(s.wanderer, s.rx[0]);
    }
  }

  lemma {:induction false} AlwaysOneStaged(steps: seq<Step>)
    requires Lockstep(steps)
    ensures OneStaged(Run(Start(), steps))
  {
    if steps != [] {
      AlwaysOneStaged(steps[..|steps| - 1]);
      OneStagedStep(Run(Start(), steps[..|steps| - 1]), steps[|steps| - 1]);
    }
  }

  /** In step, whatever was lost or flushed before, a command heard takes with it the frame staged last. */
  lemma NextCommandTakes(steps: seq<Step>, step: Step)
    requires Lockstep(steps) && Heard(Run(Start(), steps), step) && InStep(Run(Start(), steps), step)
    ensures var s := Run(Start(), steps);
            s.wanderer.staged != [] && Takes(s, step) && TakenBy(s, step) == Last(s.wanderer.staged)
    ensures var s := Run(Start(), steps);
            && Next(s, step).wanderer.fifo == []
            && Next(s, step).dispatched == s.dispatched + if step.outcome.Delivered? then TakenBy(s, step) else []
  {
    AlwaysOneStaged(steps);
    LatestLeaves(Run(Start(), steps), step);
  }

  lemma LatestLeaves(s: System, step: Step)
    requires OneStaged(s) && Heard(s, step) && InStep(s, step)
    ensures Takes(s, step) && TakenBy(s, step) == Last(s.wanderer.staged) && Next(s, step).wanderer.fifo == []
    ensures Next(s, step).dispatched == s.dispatched + if step.outcome.Delivered? then TakenBy(s, step) else []
  {
    assert s.dispatched + [] == s.dispatched;
  }

  /** Whether a step empties the FIFO other than by a command. */
  predicate Flushes(s: System, step: Step) {
    step.Repower? || (step.Glitch? && s.rx != [])
  }

  predicate NoFlush(steps: seq<Step>) {
    steps == [] ||
    (NoFlush(steps[..|steps| - 1]) && !Flushes(Run(Start(), steps[..|steps| - 1]), steps[|steps| - 1]))
  }

  /** The frame each command handled has brought on. */
  function Brought(steps: seq<Step>): seq<Bytes> {
    if steps == [] then []
    else
      var n := |steps| - 1;
      Brought(steps[..n]) + BroughtBy(Run(Start(), steps[..n]), steps[n])
  }

  function BroughtBy(s: System, step: Step): seq<Bytes> {
    if step.Process? && s.rx != [] then [Rider(s.wanderer, s.rx[0])] else []
  }

  /** The frame each command heard has taken with it, to the base or into the air. */
  function Taken(steps: seq<Step>): seq<Bytes> {
    if steps == [] then []
    else
      var n := |steps| - 1;
      Taken(steps[..n]) + TakenBy(Run(Start(), steps[..n]), steps[n])
  }

  function TakenBy(s: System, step: Step): seq<Bytes> {
    if Heard(s, step) then Head(s.wanderer.fifo) else []
  }

  /** The frames staged, but for the one that may still be waiting. */
  ghost predicate DelayedByOne(s: System, brought: seq<Bytes>, taken: seq<Bytes>) {
    && OneStaged(s)
    && s.wanderer.staged == Start().wanderer.staged + brought
    && taken + s.wanderer.fifo == s.wanderer.staged
  }

  lemma DelayStep(s: System, step: Step, brought: seq<Bytes>, taken: seq<Bytes>)
    requires DelayedByOne(s, brought, taken) && InStep(s, step) && !Flushes(s, step)
    ensures DelayedByOne(Next(s, step), brought + BroughtBy(s, step), taken + TakenBy(s, step))
  {
    OneStagedStep(s, step);
    var staged := Start().wanderer.staged;
    assert brought + [] == brought && taken + [] == taken;
    if step.Process? && s.rx != [] {
      var rider := Rider(s.wanderer, s.rx[0]);
      HandleStages(s.wanderer, s.rx[0]);
      assert staged + (brought + [rider]) == (staged + brought) + [rider];
      assert [] + [rider] == [rider];
    }
  }

  lemma {:induction false} AlwaysDelayed(steps: seq<Step>)
    requires Lockstep(steps) && NoFlush(steps)
    ensures DelayedByOne(Run(Start(), steps), Brought(steps), Taken(steps))
  {
    if steps == [] {
      AlwaysOneStaged([]);
    } else {
      var n := |steps| - 1;
      AlwaysDelayed(steps[..n]);
      DelayStep(Run(Start(), steps[..n]), steps[n], Brought(steps[..n]), Taken(steps[..n]));
    }
  }

  /**
   * In step, with any number of local operations in between and whatever commands and ACKs are lost, the delay is
   * exactly one poll: the first command heard takes the preload, and each one after it what the command heard
   * before it brought on. Every command handled has been heard, and the last one heard may still wait.
   */
  lemma OnePollDelay(steps: seq<Step>, k: nat)
    requires Lockstep(steps) && NoFlush(steps) && k < |Taken(steps)|
    ensures |Taken(steps)| == |Brought(steps)| + |Run(Start(), steps).rx| && |Run(Start(), steps).rx| <= 1
    ensures |Start().wanderer.staged| == 1
    ensures Taken(steps)[k] == if k == 0 then Start().wanderer.staged[0] else Brought(steps)[k - 1]
  {
    AlwaysDelayed(steps);
    DelayedAt(Run(Start(), steps), Brought(steps), Taken(steps), k);
  }

  lemma DelayedAt(s: System, brought: seq<Bytes>, taken: seq<Bytes>, k: nat)
    requires DelayedByOne(s, brought, taken) && k < |taken|
    ensures |taken| == |brought| + |s.rx| && |s.rx| <= 1 && |Start().wanderer.staged| == 1
    ensures taken[k] == if k == 0 then Start().wanderer.staged[0] else brought[k - 1]
  {
    assert taken[k] == (taken + s.wanderer.fifo)[k];
  }

  predicate NoAckLost(steps: seq<Step>) {
    forall step :: step in steps && step.Poll? ==> step.outcome.Delivered? || step.outcome.CommandLost?
  }

  /** If every command heard is acknowledged to the base, the base dispatches each frame taken: nothing is lost. */
  lemma {:induction false} NothingLost(steps: seq<Step>)
    requires NoAckLost(steps)
    ensures Run(Start(), steps).dispatched == Taken(steps)
  {
    if steps != [] {
      var n := |steps| - 1;
      NothingLost(steps[..n]);
      var s, taken := Run(Start(), steps[..n]), Taken(steps[..n]);
      assert steps[n] in steps && taken + [] == taken;
      assert Heard(s, steps[n]) ==> steps[n].outcome.Delivered?;
    }
  }
}

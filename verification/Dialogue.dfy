/** The base and the Wanderer together: what the laptop is told against what the base has asked. */
module Dialogue {
  import opened Bits
  import opened Wrappers
  import opened Counters
  import opened WireFormat
  import opened Wanderer
  import opened Subsequences
  import D = Decimation
  import G = Gateway
  import L = DownlinkRuns

  datatype Joint = Joint(base: G.Base, link: L.System)

  /** A frame the base reads may come with a corrupted length: then it is lost with the receive FIFO's contents. */
  datatype Step =
    | Transmit(request: Request, outcome: L.Outcome, now: Time, clock: D.Arrival, garbled: bool)
    | Report(outcome: L.Outcome, now: Time, clock: D.Arrival, garbled: bool)
    | Forward(setting: D.Setting)
    | Remote(step: L.Step)

  function PollFor(j: Joint, request: Request, outcome: L.Outcome, now: Time): L.Step {
    L.Poll(Received(RADIO_PIPE, Encode(request, j.base.sequence), now), outcome)
  }

  predicate Delivers(j: Joint, poll: L.Step)
    requires poll.Poll?
  {
    L.Heard(j.link, poll) && poll.outcome.Delivered?
  }

  /** What the base finds in its receive FIFO after a transmission. */
  function FramesRead(j: Joint, poll: L.Step, garbled: bool): seq<Bytes>
    requires poll.Poll?
  {
    if Delivers(j, poll) && !garbled then L.Head(j.link.wanderer.fifo) else []
  }

  function Downlinked(j: Joint, poll: L.Step, clock: D.Arrival, garbled: bool): seq<G.Downlinked>
    requires poll.Poll?
  {
    var frames := FramesRead(j, poll, garbled);
    if frames == [] then [G.Downlinked([], clock)] else [G.Downlinked(frames[0], clock)]
  }

  function LinkStep(j: Joint, step: Step): Option<L.Step> {
    match step
    case Transmit(request, outcome, now, _, _) => Some(PollFor(j, request, outcome, now))
    case Report(outcome, now, _, _) => Some(PollFor(j, GetPa, outcome, now))
    case Forward(_) => None
    case Remote(s) => if s.Poll? then None else Some(s)
  }

  function BaseOp(j: Joint, step: Step): Option<G.Op> {
    match step
    case Transmit(request, outcome, now, clock, garbled) =>
      var poll := PollFor(j, request, outcome, now);
      Some(G.Send(Delivers(j, poll), Downlinked(j, poll, clock, garbled)))
    case Report(outcome, now, clock, garbled) =>
      var poll := PollFor(j, GetPa, outcome, now);
      Some(G.ReportStats(Delivers(j, poll), Downlinked(j, poll, clock, garbled)))
    case Forward(s) => Some(G.Forwarding(s))
    case Remote(_) => None
  }

  function Next(j: Joint, step: Step): Joint {
    Joint(match BaseOp(j, step) case Some(op) => G.Apply(j.base, op) case None => j.base,
          match LinkStep(j, step) case Some(s) => L.Next(j.link, s) case None => j.link)
  }

  function Start(): Joint {
    Joint(G.NEW_BASE, L.Start())
  }

  function Run(steps: seq<Step>): Joint {
    if steps == [] then Start() else Next(Run(steps[..|steps| - 1]), steps[|steps| - 1])
  }

  // ---------------------------------------------------------------------------
  // Each side of a joint run
  // ---------------------------------------------------------------------------

  function BaseOps(steps: seq<Step>): seq<G.Op> {
    if steps == [] then []
    else
      var n := |steps| - 1;
      BaseOps(steps[..n]) + match BaseOp(Run(steps[..n]), steps[n]) case Some(op) => [op] case None => []
  }

  function LinkSteps(steps: seq<Step>): seq<L.Step> {
    if steps == [] then []
    else
      var n := |steps| - 1;
      LinkSteps(steps[..n]) + match LinkStep(Run(steps[..n]), steps[n]) case Some(s) => [s] case None => []
  }

  lemma BaseOneMore(ops: seq<G.Op>, op: G.Op)
    ensures G.Run(G.NEW_BASE, ops + [op]) == G.Apply(G.Run(G.NEW_BASE, ops), op)
    ensures G.AnswersRead(ops + [op]) == G.AnswersRead(ops) + G.AnswersOf(op)
  {
    assert (ops + [op])[..|ops|] == ops;
  }

  lemma LinkOneMore(steps: seq<L.Step>, step: L.Step)
    ensures L.Run(L.Start(), steps + [step]) == L.Next(L.Run(L.Start(), steps), step)
    ensures L.Polled(steps + [step]) == L.Polled(steps) + if step.Poll? then [step.command] else []
  {
    assert (steps + [step])[..|steps|] == steps;
  }

  /** A joint run is a run of the base and a run of the downlink. */
  lemma {:induction false} JointRuns(steps: seq<Step>)
    ensures Run(steps).base == G.Run(G.NEW_BASE, BaseOps(steps))
    ensures Run(steps).link == L.Run(L.Start(), LinkSteps(steps))
  {
    if steps != [] {
      var n := |steps| - 1;
      JointRuns(steps[..n]);
      BaseRunMore(BaseOps(steps[..n]), BaseOp(Run(steps[..n]), steps[n]));
      LinkRunMore(LinkSteps(steps[..n]), LinkStep(Run(steps[..n]), steps[n]));
    }
  }

  lemma BaseRunMore(ops: seq<G.Op>, op: Option<G.Op>)
    ensures var b := G.Run(G.NEW_BASE, ops);
            G.Run(G.NEW_BASE, ops + match op case Some(o) => [o] case None => []) ==
            match op case Some(o) => G.Apply(b, o) case None => b
  {
    if op.Some? {
      BaseOneMore(ops, op.value);
    } else {
      assert ops + [] == ops;
    }
  }

  lemma LinkRunMore(links: seq<L.Step>, step: Option<L.Step>)
    ensures var s := L.Run(L.Start(), links);
            L.Run(L.Start(), links + match step case Some(t) => [t] case None => []) ==
            match step case Some(t) => L.Next(s, t) case None => s
  {
    if step.Some? {
      LinkOneMore(links, step.value);
    } else {
      assert links + [] == links;
    }
  }

  /** The queries the base has sent. */
  function QueriesSent(steps: seq<Step>): seq<Request> {
    if steps == [] then [] else QueriesSent(steps[..|steps| - 1]) + QueryOf(steps[|steps| - 1])
  }

  function QueryOf(step: Step): seq<Request> {
    match step
    case Transmit(r, _, _, _, _) => if L.AsksFor(r) then [r] else []
    case Report(_, _, _, _) => [GetPa]
    case _ => []
  }

  lemma PolledQuery(j: Joint, r: Request, outcome: L.Outcome, now: Time)
    ensures var m := PollFor(j, r, outcome, now).command;
            Parse(m.payload) == Some(r) && (L.IsQuery(m) <==> L.AsksFor(r))
  {
    ParseIffEncoded(Encode(r, j.base.sequence), r);
  }

  lemma PolledStep(j: Joint, step: Step, links: seq<L.Step>)
    ensures var more := match LinkStep(j, step) case Some(s) => [s] case None => [];
            L.Queries(L.Polled(links + more)) == L.Queries(L.Polled(links)) + QueryOf(step)
  {
    match step
    case Transmit(r, outcome, now, _, _) => PolledMore(j, r, outcome, now, links);
    case Report(outcome, now, _, _) => PolledMore(j, GetPa, outcome, now, links);
    case Forward(_) => assert links + [] == links && L.Queries(L.Polled(links)) + [] == L.Queries(L.Polled(links));
    case Remote(s) => NothingPolled(links, if s.Poll? then [] else [s]);
  }

  lemma NothingPolled(links: seq<L.Step>, more: seq<L.Step>)
    requires |more| <= 1 && forall s :: s in more ==> !s.Poll?
    ensures L.Queries(L.Polled(links + more)) == L.Queries(L.Polled(links)) + []
  {
    var polled := L.Polled(links);
    assert polled + [] == polled;
    if more == [] {
      assert links + more == links;
    } else {
      assert more == [more[0]];
      LinkOneMore(links, more[0]);
    }
  }

  lemma PolledMore(j: Joint, r: Request, outcome: L.Outcome, now: Time, links: seq<L.Step>)
    ensures L.Queries(L.Polled(links + [PollFor(j, r, outcome, now)])) ==
            L.Queries(L.Polled(links)) + if L.AsksFor(r) then [r] else []
  {
    LinkOneMore(links, PollFor(j, r, outcome, now));
    L.QueriesAppend(L.Polled(links), PollFor(j, r, outcome, now).command);
    PolledQuery(j, r, outcome, now);
  }

  lemma {:induction false} PolledAreSent(steps: seq<Step>)
    ensures L.Queries(L.Polled(LinkSteps(steps))) == QueriesSent(steps)
  {
    if steps != [] {
      var n := |steps| - 1;
      PolledAreSent(steps[..n]);
      PolledStep(Run(steps[..n]), steps[n], LinkSteps(steps[..n]));
    }
  }

  /** The frames the base has read. */
  function Read(steps: seq<Step>): seq<Bytes> {
    if steps == [] then []
    else Read(steps[..|steps| - 1]) + ReadAt(Run(steps[..|steps| - 1]), steps[|steps| - 1])
  }

  function ReadAt(j: Joint, step: Step): seq<Bytes> {
    match step
    case Transmit(r, outcome, now, _, garbled) => FramesRead(j, PollFor(j, r, outcome, now), garbled)
    case Report(outcome, now, _, garbled) => FramesRead(j, PollFor(j, GetPa, outcome, now), garbled)
    case _ => []
  }

  /** The answers among the frames. */
  function Answers(frames: seq<Bytes>): seq<Reply> {
    if frames == [] then []
    else Answers(frames[..|frames| - 1]) + AnswerOf(frames[|frames| - 1])
  }

  function AnswerOf(frame: Bytes): seq<Reply> {
    match ParseReply(frame)
    case Some(r) => if r.Telemetry? then [] else [r]
    case None => []
  }

  lemma AnswersAppend(frames: seq<Bytes>, frame: Bytes)
    ensures Answers(frames + [frame]) == Answers(frames) + AnswerOf(frame)
  {
    assert (frames + [frame])[..|frames|] == frames;
  }

  lemma DownlinkedAnswers(j: Joint, poll: L.Step, clock: D.Arrival, garbled: bool)
    requires poll.Poll?
    ensures var frames := FramesRead(j, poll, garbled);
            && |frames| <= 1
            && (if Delivers(j, poll) then G.AnswersIn(Downlinked(j, poll, clock, garbled)) else []) ==
               if frames == [] then [] else AnswerOf(frames[0])
  {
    var ms := Downlinked(j, poll, clock, garbled);
    assert ms[1..] == [];
    assert G.AnswersIn(ms[1..]) == [];
  }

  lemma StepAnswers(j: Joint, step: Step)
    ensures var op, frames := BaseOp(j, step), ReadAt(j, step);
            && |frames| <= 1
            && (op.None? ==> frames == [])
            && (op.Some? ==> G.AnswersOf(op.value) == if frames == [] then [] else AnswerOf(frames[0]))
  {
    match step
    case Transmit(r, outcome, now, clock, garbled) =>
      DownlinkedAnswers(j, PollFor(j, r, outcome, now), clock, garbled);
    case Report(outcome, now, clock, garbled) =>
      DownlinkedAnswers(j, PollFor(j, GetPa, outcome, now), clock, garbled);
    case _ =>
  }

  lemma AnswersReadStep(j: Joint, step: Step, ops: seq<G.Op>, frames: seq<Bytes>)
    requires G.AnswersRead(ops) == Answers(frames)
    ensures var more := match BaseOp(j, step) case Some(op) => [op] case None => [];
            G.AnswersRead(ops + more) == Answers(frames + ReadAt(j, step))
  {
    StepAnswers(j, step);
    AnswersMore(frames, ReadAt(j, step));
    ReadMore(ops, BaseOp(j, step));
  }

  lemma AnswersMore(frames: seq<Bytes>, more: seq<Bytes>)
    requires |more| <= 1
    ensures Answers(frames + more) == Answers(frames) + if more == [] then [] else AnswerOf(more[0])
  {
    if more == [] {
      assert frames + more == frames;
    } else {
      assert more == [more[0]];
      AnswersAppend(frames, more[0]);
    }
  }

  lemma ReadMore(ops: seq<G.Op>, op: Option<G.Op>)
    ensures var more := match op case Some(o) => [o] case None => [];
            G.AnswersRead(ops + more) == G.AnswersRead(ops) + match op case Some(o) => G.AnswersOf(o) case None => []
  {
    if op.Some? {
      BaseOneMore(ops, op.value);
    } else {
      assert ops + [] == ops;
    }
  }

  lemma {:induction false} AnswersReadAre(steps: seq<Step>)
    ensures G.AnswersRead(BaseOps(steps)) == Answers(Read(steps))
  {
    if steps != [] {
      var n := |steps| - 1;
      AnswersReadAre(steps[..n]);
      AnswersReadStep(Run(steps[..n]), steps[n], BaseOps(steps[..n]), Read(steps[..n]));
    }
  }

  /** What the base reads is what the downlink delivers, less what is garbled. */
  lemma {:induction false} ReadInOrder(steps: seq<Step>)
    ensures Sub(Read(steps), Run(steps).link.dispatched)
  {
    if steps != [] {
      var n := |steps| - 1;
      ReadInOrder(steps[..n]);
      ReadStep(Run(steps[..n]), steps[n], Read(steps[..n]));
    }
  }

  lemma ReadStep(j: Joint, step: Step, frames: seq<Bytes>)
    requires Sub(frames, j.link.dispatched)
    ensures Sub(frames + ReadAt(j, step), Next(j, step).link.dispatched)
  {
    assert frames + [] == frames;
    match step
    case Transmit(r, outcome, now, _, garbled) => PollReads(j, PollFor(j, r, outcome, now), garbled, frames);
    case Report(outcome, now, _, garbled) => PollReads(j, PollFor(j, GetPa, outcome, now), garbled, frames);
    case Forward(_) =>
    case Remote(_) =>
  }

  lemma PollReads(j: Joint, poll: L.Step, garbled: bool, frames: seq<Bytes>)
    requires poll.Poll? && Sub(frames, j.link.dispatched)
    ensures Sub(frames + FramesRead(j, poll, garbled), L.Next(j.link, poll).dispatched)
  {
    var before, head := j.link.dispatched, L.Head(j.link.wanderer.fifo);
    assert frames + [] == frames && before + [] == before;
    assert L.Next(j.link, poll).dispatched == if Delivers(j, poll) then before + head else before;
    if head != [] {
      assert head == [head[0]];
      SubAppend(frames, before, head[0]);
    }
  }

  // ---------------------------------------------------------------------------
  // What the laptop is told
  // ---------------------------------------------------------------------------

  predicate Settles(query: Request, reply: Reply) {
    match query
    case GetVersion => reply == Version(FIRMWARE_MAJOR, FIRMWARE_MINOR)
    case GetStat => reply.Stat?
    case GetPa => reply.Pa?
    case SetPa(_) => reply.Pa?
    case _ => false
  }

  /** The replies settle distinct queries among those given, in the same order. */
  predicate SettleInOrder(replies: seq<Reply>, queries: seq<Request>) {
    if replies == [] then true
    else if queries == [] then false
    else
      var n, m := |replies| - 1, |queries| - 1;
      (Settles(queries[m], replies[n]) && SettleInOrder(replies[..n], queries[..m]))
      || SettleInOrder(replies, queries[..m])
  }

  lemma {:induction false} RepliesParse(frames: seq<Bytes>, queries: seq<Request>)
    requires L.AnswerInOrder(frames, queries)
    ensures SettleInOrder(Answers(frames), queries)
    decreases |queries|
  {
    if frames != [] {
      var n, m := |frames| - 1, |queries| - 1;
      if L.Replies(queries[m], frames[n]) && L.AnswerInOrder(frames[..n], queries[..m]) {
        RepliesParse(frames[..n], queries[..m]);
        ReplyParses(queries[m], frames[n]);
        var reply := AnswerOf(frames[n])[0];
        assert Answers(frames) == Answers(frames[..n]) + [reply];
        assert Answers(frames)[..|Answers(frames)| - 1] == Answers(frames[..n]);
      } else {
        RepliesParse(frames, queries[..m]);
      }
    }
  }

  lemma ReplyParses(query: Request, frame: Bytes)
    requires L.Replies(query, frame)
    ensures |AnswerOf(frame)| == 1 && Settles(query, AnswerOf(frame)[0])
  {
    if query.GetVersion? {
      ReplyRoundTrip(Version(FIRMWARE_MAJOR, FIRMWARE_MINOR));
    }
  }

  lemma {:induction false} FewerFrames(some: seq<Bytes>, all: seq<Bytes>, queries: seq<Request>)
    requires Sub(some, all) && L.AnswerInOrder(all, queries)
    ensures L.AnswerInOrder(some, queries)
    decreases |queries| + |all|
  {
    if some != [] {
      var n, m := |all| - 1, |queries| - 1;
      if L.Replies(queries[m], all[n]) && L.AnswerInOrder(all[..n], queries[..m]) {
        if some[|some| - 1] == all[n] && Sub(some[..|some| - 1], all[..n]) {
          FewerFrames(some[..|some| - 1], all[..n], queries[..m]);
        } else {
          FewerFrames(some, all[..n], queries[..m]);
        }
      } else {
        FewerFrames(some, all, queries[..m]);
      }
    }
  }

  lemma {:induction false} MoreQueries(replies: seq<Reply>, some: seq<Request>, all: seq<Request>)
    requires Sub(some, all) && SettleInOrder(replies, some)
    ensures SettleInOrder(replies, all)
    decreases |some| + |all|
  {
    if replies != [] {
      var n, m := |some| - 1, |all| - 1;
      if some[n] == all[m] && Sub(some[..n], all[..m]) {
        if Settles(some[n], replies[|replies| - 1]) && SettleInOrder(replies[..|replies| - 1], some[..n]) {
          MoreQueries(replies[..|replies| - 1], some[..n], all[..m]);
        } else {
          MoreQueries(replies, some[..n], all[..m]);
        }
      } else {
        MoreQueries(replies, some, all[..m]);
      }
    }
  }

  /** Telemetry is no answer. */
  lemma {:induction false} AnswersSelected(frames: seq<Bytes>)
    ensures Answers(frames) == Answers(Select(frames, L.IsAnswer))
  {
    if frames != [] {
      var n := |frames| - 1;
      AnswersSelected(frames[..n]);
      AnswersAppend(Select(frames[..n], L.IsAnswer), frames[n]);
      assert Select(frames[..n], L.IsAnswer) + [] == Select(frames[..n], L.IsAnswer);
      assert !L.IsAnswer(frames[n]) ==> AnswerOf(frames[n]) == [];
    }
  }

  lemma {:induction false} QueriesOfSub(some: seq<Received>, all: seq<Received>)
    requires Sub(some, all)
    ensures Sub(L.Queries(some), L.Queries(all))
    decreases |all|
  {
    if some != [] {
      var n, m := |some| - 1, |all| - 1;
      var rest, query := L.Queries(all[..m]), if L.IsQuery(all[m]) then [Parse(all[m].payload).value] else [];
      assert L.Queries(all) == rest + query && rest + [] == rest;
      if some[n] == all[m] && Sub(some[..n], all[..m]) {
        QueriesOfSub(some[..n], all[..m]);
        var first := L.Queries(some[..n]);
        assert L.Queries(some) == first + query && first + [] == first;
        if query != [] {
          SubAppend(first, rest, query[0]);
        }
      } else {
        QueriesOfSub(some, all[..m]);
        if query != [] {
          SubAppend(L.Queries(some), rest, query[0]);
        }
      }
    }
  }

  /** On every joint run each answer line settles a query of its own that the base has sent, in order. */
  lemma LinesSettleQueries(steps: seq<Step>)
    ensures SettleInOrder(G.DataLines(Run(steps).base.lines), QueriesSent(steps))
  {
    var links, frames := LinkSteps(steps), Read(steps);
    JointRuns(steps);
    G.AnswersTold(BaseOps(steps));
    AnswersReadAre(steps);
    AnswersSelected(frames);
    L.AtMostOnceInOrder(links);
    var dispatched, processed := Run(steps).link.dispatched, L.Processed(links);
    ReadInOrder(steps);
    SubSelect(frames, dispatched, L.IsAnswer);
    FewerFrames(Select(frames, L.IsAnswer), Select(dispatched, L.IsAnswer), L.Queries(processed));
    RepliesParse(Select(frames, L.IsAnswer), L.Queries(processed));
    QueriesOfSub(processed, L.Polled(links));
    PolledAreSent(steps);
    MoreQueries(Answers(frames), L.Queries(processed), QueriesSent(steps));
  }
}

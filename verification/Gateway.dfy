/** The V2 base: one transmit path, link and state events, windowed statistics, telemetry forwarding. */
module Gateway {
  import opened Bits
  import opened Wrappers
  import opened Counters
  import opened WireFormat
  import D = Decimation
  import T = Tactical

  /** What the base prints for the laptop. */
  datatype Line =
    | LinkUp
    | LinkDown
    | StateEvent(from: uint8, to: uint8)
    | TelemetryLine(telemetry: Reply, at: Time)
    | DataLine(reply: Reply)
    | UnknownFrame(kind: uint8, length: nat)
    | RfLine(linkUp: bool, sent: uint32, ok: uint32, lost: uint32)

  datatype Base = Base(
    sequence: uint8, linkUp: bool, decimator: D.Decimator,
    state: Option<uint8>,
    total: uint32, totalOk: uint32, totalAtReport: uint32, okAtReport: uint32,
    lines: seq<Line>)

  const NEW_BASE := Base(0, false, D.NEW_DECIMATOR, None, 0, 0, 0, 0, [])

  /** The state a code is printed as; any other is printed as unknown. */
  function StateNamed(code: uint8): Option<T.State> {
    match code
    case 0 => Some(T.Safe)
    case 1 => Some(T.Active)
    case 2 => Some(T.Fallback)
    case 3 => Some(T.Fault)
    case _ => None
  }

  /** A frame read from the radio and the clock readings its forwarding takes. */
  datatype Downlinked = Downlinked(frame: Bytes, clock: D.Arrival)

  function Say(b: Base, line: Line): Base {
    b.(lines := b.lines + [line])
  }

  function UpdateLink(b: Base, delivered: bool): Base {
    var b := b.(total := Inc(b.total), totalOk := if delivered then Inc(b.totalOk) else b.totalOk);
    if delivered == b.linkUp then b
    else Say(b.(linkUp := delivered), if delivered then LinkUp else LinkDown)
  }

  function Observe(b: Base, state: uint8): Base {
    var b' := b.(state := Some(state));
    if b.state.Some? && b.state.value != state then Say(b', StateEvent(b.state.value, state)) else b'
  }

  predicate KnownType(kind: uint8) {
    kind == REPLY_TELEMETRY || kind == REPLY_VERSION || kind == REPLY_STAT || kind == REPLY_PA
  }

  /** A telemetry frame feeds the state events whether or not it is forwarded. */
  function Monitor(b: Base, r: Reply, clock: D.Arrival): Base
    requires r.Telemetry?
  {
    var b' := Observe(b, r.state).(decimator := D.After(b.decimator, clock));
    if D.Due(b.decimator, clock) then Say(b', TelemetryLine(r, clock.now)) else b'
  }

  function Dispatch(b: Base, m: Downlinked): Base {
    if m.frame == [] then b
    else if !KnownType(m.frame[0]) then
      Say(b, UnknownFrame(m.frame[0], |m.frame|))
    else
      match ParseReply(m.frame)
      case None => b
      case Some(r) =>
        if r.Telemetry? then Monitor(b, r, m.clock) else Say(b, DataLine(r))
  }

  /** A zero length has already emptied the receive FIFO: what follows it is never read. */
  function Drain(b: Base, ms: seq<Downlinked>): Base
    decreases |ms|
  {
    if ms == [] || ms[0].frame == [] then b else Drain(Dispatch(b, ms[0]), ms[1..])
  }

  function Transmit(b: Base, delivered: bool, ms: seq<Downlinked>): Base {
    var b := UpdateLink(b, delivered);
    if delivered then Drain(b, ms) else b
  }

  function SendNext(b: Base, delivered: bool, ms: seq<Downlinked>): Base {
    Transmit(b.(sequence := (b.sequence + 1) % 0x100), delivered, ms)
  }

  function Report(b: Base): Base {
    var sent, ok := Wrap32(b.total - b.totalAtReport), Wrap32(b.totalOk - b.okAtReport);
    Say(b.(totalAtReport := b.total, okAtReport := b.totalOk), RfLine(b.linkUp, sent, ok, Wrap32(sent - ok)))
  }

  datatype Op =
    | Send(delivered: bool, downlinked: seq<Downlinked>)
    | ReportStats(delivered: bool, downlinked: seq<Downlinked>)
    | Forwarding(setting: D.Setting)

  function Apply(b: Base, op: Op): Base {
    match op
    case Send(delivered, ms) => SendNext(b, delivered, ms)
    case ReportStats(delivered, ms) => SendNext(Report(b), delivered, ms)
    case Forwarding(s) => b.(decimator := D.Set(b.decimator, s))
  }

  function Run(b: Base, ops: seq<Op>): Base {
    if ops == [] then b else Apply(Run(b, ops[..|ops| - 1]), ops[|ops| - 1])
  }

  // ---------------------------------------------------------------------------
  // Events
  // ---------------------------------------------------------------------------

  /** Whether each frame sent so far was acknowledged. */
  function Deliveries(ops: seq<Op>): seq<bool> {
    if ops == [] then []
    else
      var n := |ops| - 1;
      Deliveries(ops[..n]) + if ops[n].Forwarding? then [] else [ops[n].delivered]
  }

  function StateIn(m: Downlinked): seq<uint8> {
    match ParseReply(m.frame)
    case Some(Telemetry(_, state, _, _)) => [state]
    case _ => []
  }

  /** The states in the frames read up to the first one of length zero. */
  function StatesIn(ms: seq<Downlinked>): seq<uint8>
    decreases |ms|
  {
    if ms == [] || ms[0].frame == [] then [] else StateIn(ms[0]) + StatesIn(ms[1..])
  }

  function Observed(ops: seq<Op>): seq<uint8> {
    if ops == [] then []
    else
      var n := |ops| - 1;
      Observed(ops[..n]) +
      if !ops[n].Forwarding? && ops[n].delivered then StatesIn(ops[n].downlinked) else []
  }

  /** Each point where the link changes, taking it to be down at first. */
  function Edges(link: seq<bool>): seq<Line> {
    if link == [] then []
    else
      var n := |link| - 1;
      Edges(link[..n]) + if link[n] == (if n == 0 then false else link[n - 1]) then [] else [Edge(link[n])]
  }

  function Edge(up: bool): Line {
    if up then LinkUp else LinkDown
  }

  /** Each point where the observed state changes. */
  function Changes(states: seq<uint8>): seq<(uint8, uint8)> {
    if |states| <= 1 then []
    else
      var n := |states| - 1;
      Changes(states[..n]) + if states[n] == states[n - 1] then [] else [(states[n - 1], states[n])]
  }

  function LinkLines(lines: seq<Line>): seq<Line> {
    if lines == [] then []
    else
      var n := |lines| - 1;
      LinkLines(lines[..n]) + if lines[n].LinkUp? || lines[n].LinkDown? then [lines[n]] else []
  }

  function StateLines(lines: seq<Line>): seq<(uint8, uint8)> {
    if lines == [] then []
    else
      var n := |lines| - 1;
      StateLines(lines[..n]) + if lines[n].StateEvent? then [(lines[n].from, lines[n].to)] else []
  }

  /** The figures of one report. */
  datatype Figures = Figures(sent: int, ok: int, lost: int)

  function RfLines(lines: seq<Line>): seq<Figures> {
    if lines == [] then []
    else
      var n := |lines| - 1;
      RfLines(lines[..n]) + if lines[n].RfLine? then [Figures(lines[n].sent, lines[n].ok, lines[n].lost)] else []
  }

  lemma OneLine(lines: seq<Line>, l: Line)
    ensures LinkLines(lines + [l]) ==
            if l.LinkUp? || l.LinkDown? then LinkLines(lines) + [l] else LinkLines(lines)
    ensures StateLines(lines + [l]) ==
            if l.StateEvent? then StateLines(lines) + [(l.from, l.to)] else StateLines(lines)
    ensures RfLines(lines + [l]) ==
            if l.RfLine? then RfLines(lines) + [Figures(l.sent, l.ok, l.lost)] else RfLines(lines)
  {
    assert (lines + [l])[..|lines|] == lines;
  }

  /** The events printed so far are the changes in what has been observed so far. */
  ghost predicate StatesTold(b: Base, states: seq<uint8>) {
    && StateLines(b.lines) == Changes(states)
    && b.state == if states == [] then None else Some(states[|states| - 1])
  }

  /** Everything but the state, the decimator and the lines about frames. */
  predicate SameBooks(a: Base, b: Base) {
    && a.sequence == b.sequence && a.linkUp == b.linkUp
    && a.total == b.total && a.totalOk == b.totalOk
    && a.totalAtReport == b.totalAtReport && a.okAtReport == b.okAtReport
    && LinkLines(a.lines) == LinkLines(b.lines) && RfLines(a.lines) == RfLines(b.lines)
  }

  lemma ObserveTells(b: Base, states: seq<uint8>, state: uint8)
    requires StatesTold(b, states)
    ensures StatesTold(Observe(b, state), states + [state]) && SameBooks(b, Observe(b, state))
  {
    OneChange(states, state);
    if b.state.Some? {
      OneLine(b.lines, StateEvent(b.state.value, state));
    }
  }

  lemma OneChange(states: seq<uint8>, state: uint8)
    ensures Changes(states + [state]) ==
            if states == [] || states[|states| - 1] == state then Changes(states)
            else Changes(states) + [(states[|states| - 1], state)]
  {
    assert (states + [state])[..|states|] == states;
  }

  lemma SayTells(b: Base, l: Line, states: seq<uint8>)
    requires StatesTold(b, states) && !l.StateEvent? && !l.LinkUp? && !l.LinkDown? && !l.RfLine?
    ensures StatesTold(Say(b, l), states) && SameBooks(b, Say(b, l))
  {
    OneLine(b.lines, l);
  }

  lemma MonitorTells(b: Base, r: Reply, clock: D.Arrival, states: seq<uint8>)
    requires StatesTold(b, states) && r.Telemetry?
    ensures StatesTold(Monitor(b, r, clock), states + [r.state]) && SameBooks(b, Monitor(b, r, clock))
  {
    ObserveTells(b, states, r.state);
    var b' := Observe(b, r.state).(decimator := D.After(b.decimator, clock));
    SayTells(b', TelemetryLine(r, clock.now), states + [r.state]);
  }

  lemma DispatchTells(b: Base, m: Downlinked, states: seq<uint8>)
    requires StatesTold(b, states)
    ensures StatesTold(Dispatch(b, m), states + StateIn(m)) && SameBooks(b, Dispatch(b, m))
  {
    assert states + [] == states;
    var parsed := ParseReply(m.frame);
    if m.frame == [] {
    } else if !KnownType(m.frame[0]) {
      SayTells(b, UnknownFrame(m.frame[0], |m.frame|), states);
    } else if parsed.Some? {
      if parsed.value.Telemetry? {
        MonitorTells(b, parsed.value, m.clock, states);
      } else {
        SayTells(b, DataLine(parsed.value), states);
      }
    }
  }

  /** One drained frame and the rest of the drain, as one. */
  ghost predicate Drained(a: Base, b: Base, states: seq<uint8>) {
    StatesTold(b, states) && SameBooks(a, b)
  }

  lemma DrainOnce(b: Base, ms: seq<Downlinked>)
    requires ms != [] && ms[0].frame != []
    ensures Drain(b, ms) == Drain(Dispatch(b, ms[0]), ms[1..])
    ensures StatesIn(ms) == StateIn(ms[0]) + StatesIn(ms[1..])
  {
  }

  lemma Grouped<T>(a: seq<T>, b: seq<T>, c: seq<T>)
    ensures a + b + c == a + (b + c)
  {
  }

  lemma DrainedThrough(a: Base, b: Base, c: Base, states: seq<uint8>)
    requires SameBooks(a, b) && Drained(b, c, states)
    ensures Drained(a, c, states)
  {
  }

  lemma {:induction false} DrainTells(b: Base, ms: seq<Downlinked>, states: seq<uint8>)
    requires StatesTold(b, states)
    ensures Drained(b, Drain(b, ms), states + StatesIn(ms))
    decreases |ms|
  {
    if ms == [] || ms[0].frame == [] {
      assert states + [] == states;
    } else {
      var next, first, rest := Dispatch(b, ms[0]), StateIn(ms[0]), StatesIn(ms[1..]);
      DispatchTells(b, ms[0], states);
      DrainTells(next, ms[1..], states + first);
      DrainOnce(b, ms);
      Grouped(states, first, rest);
      DrainedThrough(b, next, Drain(next, ms[1..]), states + first + rest);
    }
  }

  // ---------------------------------------------------------------------------
  // Statistics windows
  // ---------------------------------------------------------------------------

  datatype Tally = Tally(sent: nat, ok: nat)

  function Count(t: Tally, delivered: bool): Tally {
    Tally(t.sent + 1, if delivered then t.ok + 1 else t.ok)
  }

  /** The true counts in the window still open. A report's own query falls into the window it opens. */
  function Open(ops: seq<Op>): Tally {
    if ops == [] then Tally(0, 0) else OpenAfter(Open(ops[..|ops| - 1]), ops[|ops| - 1])
  }

  function OpenAfter(t: Tally, op: Op): Tally {
    match op
    case Send(delivered, _) => Count(t, delivered)
    case ReportStats(delivered, _) => Count(Tally(0, 0), delivered)
    case Forwarding(_) => t
  }

  function Closed(ops: seq<Op>): seq<Tally> {
    if ops == [] then []
    else
      var n := |ops| - 1;
      Closed(ops[..n]) + if ops[n].ReportStats? then [Open(ops[..n])] else []
  }

  /** The line that reports a window, with the counts cut to 32 bits. */
  function Reported(t: Tally): Figures {
    Figures(Wrap32(t.sent), Wrap32(t.ok), Wrap32(t.sent - t.ok))
  }

  function ReportedAll(ts: seq<Tally>): (r: seq<Figures>)
    ensures |r| == |ts|
  {
    seq(|ts|, i requires 0 <= i < |ts| => Reported(ts[i]))
  }

  ghost predicate LinkBooked(b: Base, link: seq<bool>) {
    && LinkLines(b.lines) == Edges(link)
    && b.linkUp == (link != [] && link[|link| - 1])
    && b.sequence == |link| % 0x100
  }

  ghost predicate Counted(b: Base, open: Tally) {
    && Same32(b.total - b.totalAtReport, open.sent) && Same32(b.totalOk - b.okAtReport, open.ok)
    && open.ok <= open.sent
  }

  ghost predicate WindowsBooked(b: Base, closed: seq<Tally>, open: Tally) {
    RfLines(b.lines) == ReportedAll(closed) && Counted(b, open)
  }

  /** The books of a run so far: link history, closed windows, the open one. */
  ghost predicate Booked(b: Base, link: seq<bool>, closed: seq<Tally>, open: Tally) {
    LinkBooked(b, link) && WindowsBooked(b, closed, open)
  }

  lemma OneEdge(link: seq<bool>, delivered: bool)
    ensures Edges(link + [delivered]) ==
            if delivered == (link != [] && link[|link| - 1]) then Edges(link) else Edges(link) + [Edge(delivered)]
  {
    assert (link + [delivered])[..|link|] == link;
  }

  /** What updating the link leaves, field by field. */
  lemma UpdateLinkFields(b: Base, delivered: bool)
    ensures var u := UpdateLink(b, delivered);
            && u.lines == (if delivered == b.linkUp then b.lines else b.lines + [Edge(delivered)])
            && u.linkUp == delivered && u.sequence == b.sequence && u.state == b.state
            && u.total == Inc(b.total) && u.totalAtReport == b.totalAtReport
            && u.totalOk == (if delivered then Inc(b.totalOk) else b.totalOk) && u.okAtReport == b.okAtReport
  {
  }

  lemma UpdateLinkBooks(b: Base, link: seq<bool>, delivered: bool)
    requires LinkBooked(b, link)
    ensures LinkBooked(UpdateLink(b.(sequence := (b.sequence + 1) % 0x100), delivered), link + [delivered])
  {
    var n := b.(sequence := (b.sequence + 1) % 0x100);
    UpdateLinkFields(n, delivered);
    LinesWithEdge(b.lines, link, delivered);
    NextSequence(b.sequence, |link|);
    LinkBookedFrom(UpdateLink(n, delivered), link + [delivered]);
  }

  lemma LinkBookedFrom(b: Base, link: seq<bool>)
    requires LinkLines(b.lines) == Edges(link)
    requires b.linkUp == (link != [] && link[|link| - 1]) && b.sequence == |link| % 0x100
    ensures LinkBooked(b, link)
  {
  }

  lemma NextSequence(sequence: uint8, n: nat)
    requires sequence == n % 0x100
    ensures (sequence + 1) % 0x100 == (n + 1) % 0x100
  {
  }

  lemma LinesWithEdge(lines: seq<Line>, link: seq<bool>, delivered: bool)
    requires LinkLines(lines) == Edges(link)
    ensures var more := if delivered == (link != [] && link[|link| - 1]) then lines else lines + [Edge(delivered)];
            LinkLines(more) == Edges(link + [delivered])
  {
    OneEdge(link, delivered);
    OneLine(lines, Edge(delivered));
  }

  lemma UpdateCounts(b: Base, open: Tally, delivered: bool)
    requires Counted(b, open)
    ensures Counted(UpdateLink(b, delivered), Count(open, delivered))
  {
    UpdateLinkFields(b, delivered);
    IncSame(b.total, 0 - (b.totalAtReport as int), open.sent);
    IncSame(b.totalOk, 0 - (b.okAtReport as int), open.ok);
    CountedFrom(UpdateLink(b, delivered), Count(open, delivered));
  }

  lemma CountedFrom(b: Base, open: Tally)
    requires Same32(b.total - b.totalAtReport, open.sent) && Same32(b.totalOk - b.okAtReport, open.ok)
    requires open.ok <= open.sent
    ensures Counted(b, open)
  {
  }

  lemma UpdateWindows(b: Base, closed: seq<Tally>, open: Tally, delivered: bool)
    requires WindowsBooked(b, closed, open)
    ensures WindowsBooked(UpdateLink(b, delivered), closed, Count(open, delivered))
  {
    OneLine(b.lines, Edge(delivered));
    UpdateCounts(b, open, delivered);
  }

  lemma UpdateStates(b: Base, states: seq<uint8>, delivered: bool)
    requires StatesTold(b, states)
    ensures StatesTold(UpdateLink(b, delivered), states)
  {
    OneLine(b.lines, Edge(delivered));
  }

  lemma ReportLine(b: Base, open: Tally) returns (line: Line)
    requires Counted(b, open)
    ensures Report(b).lines == b.lines + [line] && line.RfLine?
    ensures Figures(line.sent, line.ok, line.lost) == Reported(open)
    ensures Counted(Report(b), Tally(0, 0))
  {
    var sent, ok := Wrap32(b.total - b.totalAtReport), Wrap32(b.totalOk - b.okAtReport);
    line := RfLine(b.linkUp, sent, ok, Wrap32((sent as int) - ok));
    ReportedWindow(b.total, b.totalAtReport, b.totalOk, b.okAtReport, open);
  }

  lemma ReportWindows(b: Base, closed: seq<Tally>, open: Tally)
    requires WindowsBooked(b, closed, open)
    ensures WindowsBooked(Report(b), closed + [open], Tally(0, 0))
  {
    var line := ReportLine(b, open);
    LinesWithReport(b.lines, line, closed, open);
  }

  lemma LinesWithReport(lines: seq<Line>, line: Line, closed: seq<Tally>, open: Tally)
    requires RfLines(lines) == ReportedAll(closed)
    requires line.RfLine? && Figures(line.sent, line.ok, line.lost) == Reported(open)
    ensures RfLines(lines + [line]) == ReportedAll(closed + [open])
  {
    OneLine(lines, line);
    OneWindow(closed, open);
  }

  lemma OneWindow(closed: seq<Tally>, open: Tally)
    ensures ReportedAll(closed + [open]) == ReportedAll(closed) + [Reported(open)]
  {
  }

  lemma ReportBooks(b: Base, link: seq<bool>, closed: seq<Tally>, open: Tally, states: seq<uint8>)
    requires Booked(b, link, closed, open) && StatesTold(b, states)
    ensures Booked(Report(b), link, closed + [open], Tally(0, 0)) && StatesTold(Report(b), states)
  {
    ReportWindows(b, closed, open);
    var sent, ok := Wrap32(b.total - b.totalAtReport), Wrap32(b.totalOk - b.okAtReport);
    OneLine(b.lines, RfLine(b.linkUp, sent, ok, Wrap32((sent as int) - ok)));
  }

  lemma ReportedWindow(total: uint32, mark: uint32, totalOk: uint32, okMark: uint32, t: Tally)
    requires Same32(total - mark, t.sent) && Same32(totalOk - okMark, t.ok)
    ensures var sent, ok := Wrap32(total - mark), Wrap32(totalOk - okMark);
            Figures(sent, ok, Wrap32((sent as int) - ok)) == Reported(t)
  {
    WindowWraps(total, mark, t.sent);
    WindowWraps(totalOk, okMark, t.ok);
    DifferenceWraps(t.sent, t.ok);
  }

  lemma WindowWraps(total: uint32, mark: uint32, n: nat)
    requires Same32(total - mark, n)
    ensures Wrap32(total - mark) == Wrap32(n)
  {
  }

  lemma DifferenceWraps(a: nat, b: nat)
    ensures Wrap32((Wrap32(a) as int) - Wrap32(b)) == Wrap32(a - b)
  {
  }

  lemma SameBooksBooked(a: Base, b: Base, link: seq<bool>, closed: seq<Tally>, open: Tally)
    requires Booked(a, link, closed, open) && SameBooks(a, b)
    ensures Booked(b, link, closed, open)
  {
  }

  lemma DrainBooks(b: Base, link: seq<bool>, closed: seq<Tally>, open: Tally, states: seq<uint8>, ms: seq<Downlinked>)
    requires Booked(b, link, closed, open) && StatesTold(b, states)
    ensures Booked(Drain(b, ms), link, closed, open) && StatesTold(Drain(b, ms), states + StatesIn(ms))
  {
    DrainTells(b, ms, states);
    SameBooksBooked(b, Drain(b, ms), link, closed, open);
  }

  lemma SendBooks(b: Base, link: seq<bool>, closed: seq<Tally>, open: Tally, states: seq<uint8>,
                  delivered: bool, ms: seq<Downlinked>)
    requires Booked(b, link, closed, open) && StatesTold(b, states)
    ensures Booked(SendNext(b, delivered, ms), link + [delivered], closed, Count(open, delivered))
    ensures StatesTold(SendNext(b, delivered, ms), if delivered then states + StatesIn(ms) else states)
  {
    var u := UpdateLink(b.(sequence := (b.sequence + 1) % 0x100), delivered);
    SendUpdates(b, link, closed, open, states, delivered);
    if delivered {
      assert SendNext(b, delivered, ms) == Drain(u, ms);
      DrainBooks(u, link + [delivered], closed, Count(open, delivered), states, ms);
    } else {
      assert SendNext(b, delivered, ms) == u;
    }
  }

  lemma SendUpdates(b: Base, link: seq<bool>, closed: seq<Tally>, open: Tally, states: seq<uint8>, delivered: bool)
    requires Booked(b, link, closed, open) && StatesTold(b, states)
    ensures var u := UpdateLink(b.(sequence := (b.sequence + 1) % 0x100), delivered);
            Booked(u, link + [delivered], closed, Count(open, delivered)) && StatesTold(u, states)
  {
    var n := b.(sequence := (b.sequence + 1) % 0x100);
    UpdateLinkBooks(b, link, delivered);
    UpdateWindows(n, closed, open, delivered);
    UpdateStates(n, states, delivered);
  }

  ghost predicate Agrees(b: Base, ops: seq<Op>) {
    Booked(b, Deliveries(ops), Closed(ops), Open(ops)) && StatesTold(b, Observed(ops))
  }

  lemma AgreesFrom(b: Base, ops: seq<Op>, link: seq<bool>, closed: seq<Tally>, open: Tally, states: seq<uint8>)
    requires Booked(b, link, closed, open) && StatesTold(b, states)
    requires Deliveries(ops) == link && Closed(ops) == closed
    requires Open(ops) == open && Observed(ops) == states
    ensures Agrees(b, ops)
  {
  }

  /** What one more operation adds to the history. */
  lemma OneOp(ops: seq<Op>, op: Op)
    ensures var more := ops + [op];
            && Deliveries(more) == Deliveries(ops) + (if op.Forwarding? then [] else [op.delivered])
            && Closed(more) == Closed(ops) + (if op.ReportStats? then [Open(ops)] else [])
            && Open(more) == OpenAfter(Open(ops), op)
            && Observed(more) == Observed(ops) + if !op.Forwarding? && op.delivered then StatesIn(op.downlinked) else []
  {
    assert (ops + [op])[..|ops|] == ops;
  }

  lemma AgreesAfterSend(b: Base, ops: seq<Op>, delivered: bool, ms: seq<Downlinked>)
    requires Agrees(b, ops)
    ensures Agrees(SendNext(b, delivered, ms), ops + [Send(delivered, ms)])
  {
    var link, closed, open, states := Deliveries(ops), Closed(ops), Open(ops), Observed(ops);
    OneOp(ops, Send(delivered, ms));
    SendBooks(b, link, closed, open, states, delivered, ms);
    assert closed + [] == closed && states + [] == states;
    AgreesFrom(SendNext(b, delivered, ms), ops + [Send(delivered, ms)], link + [delivered], closed,
               Count(open, delivered), if delivered then states + StatesIn(ms) else states);
  }

  lemma AgreesAfterReport(b: Base, ops: seq<Op>, delivered: bool, ms: seq<Downlinked>)
    requires Agrees(b, ops)
    ensures Agrees(SendNext(Report(b), delivered, ms), ops + [ReportStats(delivered, ms)])
  {
    var link, closed, open, states := Deliveries(ops), Closed(ops), Open(ops), Observed(ops);
    OneOp(ops, ReportStats(delivered, ms));
    ReportBooks(b, link, closed, open, states);
    SendBooks(Report(b), link, closed + [open], Tally(0, 0), states, delivered, ms);
    assert states + [] == states;
    AgreesFrom(SendNext(Report(b), delivered, ms), ops + [ReportStats(delivered, ms)], link + [delivered],
               closed + [open], Count(Tally(0, 0), delivered), if delivered then states + StatesIn(ms) else states);
  }

  lemma AgreesAfterForwarding(b: Base, ops: seq<Op>, s: D.Setting)
    requires Agrees(b, ops)
    ensures Agrees(Apply(b, Forwarding(s)), ops + [Forwarding(s)])
  {
    var link, closed, states := Deliveries(ops), Closed(ops), Observed(ops);
    OneOp(ops, Forwarding(s));
    assert link + [] == link && closed + [] == closed && states + [] == states;
    AgreesFrom(Apply(b, Forwarding(s)), ops + [Forwarding(s)], link, closed, Open(ops), states);
  }

  lemma AgreesAfter(b: Base, ops: seq<Op>, op: Op)
    requires Agrees(b, ops)
    ensures Agrees(Apply(b, op), ops + [op])
  {
    match op
    case Send(delivered, ms) => AgreesAfterSend(b, ops, delivered, ms);
    case ReportStats(delivered, ms) => AgreesAfterReport(b, ops, delivered, ms);
    case Forwarding(s) => AgreesAfterForwarding(b, ops, s);
  }

  lemma AgreesAtFirst(b: Base, ops: seq<Op>)
    requires b.lines == [] && !b.linkUp && b.state == None && b.sequence == 0
    requires b.total == b.totalAtReport == b.totalOk == b.okAtReport && ops == []
    ensures Agrees(b, ops)
  {
    assert Booked(b, Deliveries(ops), Closed(ops), Open(ops));
  }

  /** Links, windows, states and sequence numbers over every run. */
  lemma {:induction false} RunBooks(ops: seq<Op>)
    ensures Agrees(Run(NEW_BASE, ops), ops)
  {
    if ops == [] {
      AgreesAtFirst(NEW_BASE, ops);
    } else {
      var before, op := ops[..|ops| - 1], ops[|ops| - 1];
      RunBooks(before);
      assert ops == before + [op];
      AgreesAfter(Run(NEW_BASE, before), before, op);
      assert Run(NEW_BASE, ops) == Apply(Run(NEW_BASE, before), op);
    }
  }

  /** Link events alternate, starting with up. */
  lemma {:induction false} EdgesAlternate(link: seq<bool>)
    ensures forall i :: 0 <= i < |Edges(link)| ==> Edges(link)[i] == Edge(i % 2 == 0)
    ensures (|Edges(link)| % 2 == 1) == (link != [] && link[|link| - 1])
  {
    if link != [] {
      EdgesAlternate(link[..|link| - 1]);
    }
  }

  /** State events chain from the first state observed to the last. */
  lemma {:induction false} ChangesChain(states: seq<uint8>)
    ensures var c := Changes(states);
            && (forall i :: 0 <= i < |c| ==> c[i].0 != c[i].1)
            && (forall i :: 0 < i < |c| ==> c[i - 1].1 == c[i].0)
            && (c != [] ==> states != [] && c[0].0 == states[0] && c[|c| - 1].1 == states[|states| - 1])
            && (c == [] ==> forall i :: 0 <= i < |states| ==> states[i] == states[0])
  {
    if |states| > 1 {
      var n := |states| - 1;
      ChangesChain(states[..n]);
      assert states[..n][n - 1] == states[n - 1] && states[..n][0] == states[0];
      if Changes(states) == [] {
        assert states[n - 1] == states[0];
        forall i | 0 <= i < n ensures states[i] == states[0] {
          assert states[..n][i] == states[i];
        }
      }
    }
  }

  /** What the laptop is told of the link and of the state, whatever is forwarded. */
  lemma EventsTold(ops: seq<Op>)
    ensures var lines := Run(NEW_BASE, ops).lines;
            && LinkLines(lines) == Edges(Deliveries(ops))
            && (forall i :: 0 <= i < |LinkLines(lines)| ==>
                  LinkLines(lines)[i] == if i % 2 == 0 then LinkUp else LinkDown)
            && StateLines(lines) == Changes(Observed(ops))
  {
    RunBooks(ops);
    EdgesAlternate(Deliveries(ops));
  }

  // ---------------------------------------------------------------------------
  // Replies
  // ---------------------------------------------------------------------------

  /** The answer to a query that a frame carries, if any. */
  function AnswerIn(m: Downlinked): seq<Reply> {
    match ParseReply(m.frame)
    case Some(r) => if r.Telemetry? then [] else [r]
    case None => []
  }

  function AnswersIn(ms: seq<Downlinked>): seq<Reply>
    decreases |ms|
  {
    if ms == [] || ms[0].frame == [] then [] else AnswerIn(ms[0]) + AnswersIn(ms[1..])
  }

  /** The answers in the frames read on a run: those up to a zero length after each delivery. */
  function AnswersRead(ops: seq<Op>): seq<Reply> {
    if ops == [] then []
    else
      var n := |ops| - 1;
      AnswersRead(ops[..n]) +
      if !ops[n].Forwarding? && ops[n].delivered then AnswersIn(ops[n].downlinked) else []
  }

  function DataLines(lines: seq<Line>): seq<Reply> {
    if lines == [] then []
    else
      var n := |lines| - 1;
      DataLines(lines[..n]) + if lines[n].DataLine? then [lines[n].reply] else []
  }

  lemma OneDataLine(lines: seq<Line>, l: Line)
    ensures DataLines(lines + [l]) == if l.DataLine? then DataLines(lines) + [l.reply] else DataLines(lines)
  {
    assert (lines + [l])[..|lines|] == lines;
  }

  lemma DispatchAnswers(b: Base, m: Downlinked)
    ensures DataLines(Dispatch(b, m).lines) == DataLines(b.lines) + AnswerIn(m)
  {
    var parsed := ParseReply(m.frame);
    if m.frame == [] {
    } else if !KnownType(m.frame[0]) {
      OneDataLine(b.lines, UnknownFrame(m.frame[0], |m.frame|));
    } else if parsed.Some? {
      if parsed.value.Telemetry? {
        MonitorAnswers(b, parsed.value, m.clock);
      } else {
        OneDataLine(b.lines, DataLine(parsed.value));
      }
    }
  }

  lemma MonitorAnswers(b: Base, r: Reply, clock: D.Arrival)
    requires r.Telemetry?
    ensures DataLines(Monitor(b, r, clock).lines) == DataLines(b.lines)
  {
    if b.state.Some? {
      OneDataLine(b.lines, StateEvent(b.state.value, r.state));
    }
    OneDataLine(Observe(b, r.state).lines, TelemetryLine(r, clock.now));
  }

  lemma {:induction false} DrainAnswers(b: Base, ms: seq<Downlinked>)
    ensures DataLines(Drain(b, ms).lines) == DataLines(b.lines) + AnswersIn(ms)
    decreases |ms|
  {
    if ms != [] && ms[0].frame != [] {
      DispatchAnswers(b, ms[0]);
      DrainAnswers(Dispatch(b, ms[0]), ms[1..]);
    }
  }

  lemma TransmitAnswers(b: Base, delivered: bool, ms: seq<Downlinked>)
    ensures DataLines(Transmit(b, delivered, ms).lines) ==
            DataLines(b.lines) + if delivered then AnswersIn(ms) else []
  {
    UpdateLinkFields(b, delivered);
    OneDataLine(b.lines, Edge(delivered));
    if delivered {
      DrainAnswers(UpdateLink(b, delivered), ms);
    }
  }

  lemma ReportAnswers(b: Base)
    ensures DataLines(Report(b).lines) == DataLines(b.lines)
  {
    var sent, ok := Wrap32(b.total - b.totalAtReport), Wrap32(b.totalOk - b.okAtReport);
    OneDataLine(b.lines, RfLine(b.linkUp, sent, ok, Wrap32((sent as int) - ok)));
  }

  function AnswersOf(op: Op): seq<Reply> {
    if !op.Forwarding? && op.delivered then AnswersIn(op.downlinked) else []
  }

  lemma ApplyAnswers(b: Base, op: Op)
    ensures DataLines(Apply(b, op).lines) == DataLines(b.lines) + AnswersOf(op)
  {
    match op
    case Send(delivered, ms) => SendAnswers(b, delivered, ms);
    case ReportStats(delivered, ms) => ReportSendAnswers(b, delivered, ms);
    case Forwarding(_) =>
      var answers := DataLines(b.lines);
      assert answers + [] == answers;
  }

  lemma ReportSendAnswers(b: Base, delivered: bool, ms: seq<Downlinked>)
    ensures DataLines(SendNext(Report(b), delivered, ms).lines) ==
            DataLines(b.lines) + if delivered then AnswersIn(ms) else []
  {
    ReportAnswers(b);
    SendAnswers(Report(b), delivered, ms);
  }

  lemma SendAnswers(b: Base, delivered: bool, ms: seq<Downlinked>)
    ensures DataLines(SendNext(b, delivered, ms).lines) ==
            DataLines(b.lines) + if delivered then AnswersIn(ms) else []
  {
    var next := b.(sequence := (b.sequence + 1) % 0x100);
    assert SendNext(b, delivered, ms) == Transmit(next, delivered, ms);
    TransmitAnswers(next, delivered, ms);
  }

  /** The laptop is told every answer read, once and in order, and no other. */
  lemma {:induction false} AnswersTold(ops: seq<Op>)
    ensures DataLines(Run(NEW_BASE, ops).lines) == AnswersRead(ops)
  {
    if ops != [] {
      var n := |ops| - 1;
      AnswersTold(ops[..n]);
      ApplyAnswers(Run(NEW_BASE, ops[..n]), ops[n]);
    }
  }

  // ---------------------------------------------------------------------------
  // Unknown frames, and the link as reported
  // ---------------------------------------------------------------------------

  /** The lines about unknown frames, or the reports. */
  datatype Kind = Unknowns | Reports

  predicate IsOf(l: Line, kind: Kind) {
    match kind
    case Unknowns => l.UnknownFrame?
    case Reports => l.RfLine?
  }

  function Pick(lines: seq<Line>, kind: Kind): seq<Line> {
    if lines == [] then []
    else
      var n := |lines| - 1;
      Pick(lines[..n], kind) + if IsOf(lines[n], kind) then [lines[n]] else []
  }

  lemma OnePick(lines: seq<Line>, l: Line, kind: Kind)
    ensures Pick(lines + [l], kind) == if IsOf(l, kind) then Pick(lines, kind) + [l] else Pick(lines, kind)
  {
    assert (lines + [l])[..|lines|] == lines;
  }

  /** The line about a frame of none of the four types. */
  function UnknownIn(m: Downlinked, kind: Kind): seq<Line> {
    if kind.Unknowns? && m.frame != [] && m.frame[0] !in {0x01, 0x02, 0x03, 0x04}
    then [UnknownFrame(m.frame[0], |m.frame|)] else []
  }

  function UnknownsIn(ms: seq<Downlinked>, kind: Kind): seq<Line>
    decreases |ms|
  {
    if ms == [] || ms[0].frame == [] then [] else UnknownIn(ms[0], kind) + UnknownsIn(ms[1..], kind)
  }

  lemma DispatchPicks(b: Base, m: Downlinked, kind: Kind)
    ensures Pick(Dispatch(b, m).lines, kind) == Pick(b.lines, kind) + UnknownIn(m, kind)
  {
    var parsed, picked := ParseReply(m.frame), Pick(b.lines, kind);
    assert picked + [] == picked;
    if m.frame == [] {
    } else if !KnownType(m.frame[0]) {
      OnePick(b.lines, UnknownFrame(m.frame[0], |m.frame|), kind);
    } else if parsed.Some? {
      if parsed.value.Telemetry? {
        MonitorPicks(b, parsed.value, m.clock, kind);
      } else {
        OnePick(b.lines, DataLine(parsed.value), kind);
      }
    }
  }

  lemma MonitorPicks(b: Base, r: Reply, clock: D.Arrival, kind: Kind)
    requires r.Telemetry?
    ensures Pick(Monitor(b, r, clock).lines, kind) == Pick(b.lines, kind)
  {
    if b.state.Some? {
      OnePick(b.lines, StateEvent(b.state.value, r.state), kind);
    }
    OnePick(Observe(b, r.state).lines, TelemetryLine(r, clock.now), kind);
  }

  lemma {:induction false} DrainPicks(b: Base, ms: seq<Downlinked>, kind: Kind)
    ensures Pick(Drain(b, ms).lines, kind) == Pick(b.lines, kind) + UnknownsIn(ms, kind)
    decreases |ms|
  {
    if ms != [] && ms[0].frame != [] {
      DispatchPicks(b, ms[0], kind);
      DrainPicks(Dispatch(b, ms[0]), ms[1..], kind);
      Grouped(Pick(b.lines, kind), UnknownIn(ms[0], kind), UnknownsIn(ms[1..], kind));
    }
  }

  lemma SendPicks(b: Base, delivered: bool, ms: seq<Downlinked>, kind: Kind)
    ensures Pick(SendNext(b, delivered, ms).lines, kind) ==
            Pick(b.lines, kind) + if delivered then UnknownsIn(ms, kind) else []
  {
    var next := b.(sequence := (b.sequence + 1) % 0x100);
    assert SendNext(b, delivered, ms) == Transmit(next, delivered, ms);
    UpdateLinkFields(next, delivered);
    OnePick(b.lines, Edge(delivered), kind);
    if delivered {
      DrainPicks(UpdateLink(next, delivered), ms, kind);
    }
  }

  lemma ReportPicks(b: Base, kind: Kind)
    ensures var r := Report(b);
            && r.lines != [] && r.lines[|r.lines| - 1].RfLine? && r.lines[|r.lines| - 1].linkUp == b.linkUp
            && Pick(r.lines, kind) == Pick(b.lines, kind) + if kind.Reports? then [r.lines[|r.lines| - 1]] else []
  {
    var sent, ok := Wrap32(b.total - b.totalAtReport), Wrap32(b.totalOk - b.okAtReport);
    OnePick(b.lines, RfLine(b.linkUp, sent, ok, Wrap32((sent as int) - ok)), kind);
  }

  /** The unknown frames read on a run. */
  function UnknownsRead(ops: seq<Op>): seq<Line> {
    if ops == [] then []
    else
      var n := |ops| - 1;
      UnknownsRead(ops[..n]) +
      if !ops[n].Forwarding? && ops[n].delivered then UnknownsIn(ops[n].downlinked, Unknowns) else []
  }

  lemma ApplyUnknowns(b: Base, op: Op)
    ensures Pick(Apply(b, op).lines, Unknowns) ==
            Pick(b.lines, Unknowns) +
            if !op.Forwarding? && op.delivered then UnknownsIn(op.downlinked, Unknowns) else []
  {
    var picked := Pick(b.lines, Unknowns);
    assert picked + [] == picked;
    match op
    case Send(delivered, ms) => SendPicks(b, delivered, ms, Unknowns);
    case ReportStats(delivered, ms) =>
      ReportPicks(b, Unknowns);
      SendPicks(Report(b), delivered, ms, Unknowns);
    case Forwarding(_) =>
  }

  /** The laptop is told of every frame of an unknown type, with its type and length, and of no other. */
  lemma {:induction false} UnknownsTold(ops: seq<Op>)
    ensures Pick(Run(NEW_BASE, ops).lines, Unknowns) == UnknownsRead(ops)
  {
    if ops != [] {
      UnknownsTold(ops[..|ops| - 1]);
      ApplyUnknowns(Run(NEW_BASE, ops[..|ops| - 1]), ops[|ops| - 1]);
    }
  }

  /** Whether each report says that the link is up. */
  function LinksIn(reports: seq<Line>): seq<bool> {
    if reports == [] then []
    else
      var n := |reports| - 1;
      LinksIn(reports[..n]) + if reports[n].RfLine? then [reports[n].linkUp] else []
  }

  /** Whether the last transmission before each report was acknowledged. */
  function LinksAtReports(ops: seq<Op>): seq<bool> {
    if ops == [] then []
    else
      var n := |ops| - 1;
      var link := Deliveries(ops[..n]);
      LinksAtReports(ops[..n]) + if ops[n].ReportStats? then [link != [] && link[|link| - 1]] else []
  }

  lemma {:induction false} NoneUnknown(ms: seq<Downlinked>)
    ensures UnknownsIn(ms, Reports) == []
    decreases |ms|
  {
    if ms != [] && ms[0].frame != [] {
      NoneUnknown(ms[1..]);
    }
  }

  lemma ApplyReports(b: Base, op: Op)
    ensures LinksIn(Pick(Apply(b, op).lines, Reports)) ==
            LinksIn(Pick(b.lines, Reports)) + if op.ReportStats? then [b.linkUp] else []
  {
    var picked := Pick(b.lines, Reports);
    assert picked + [] == picked && LinksIn(picked) + [] == LinksIn(picked);
    match op
    case Send(delivered, ms) =>
      SendPicks(b, delivered, ms, Reports);
      NoneUnknown(ms);
    case ReportStats(delivered, ms) =>
      var r := Report(b);
      ReportPicks(b, Reports);
      SendPicks(r, delivered, ms, Reports);
      NoneUnknown(ms);
      var line := r.lines[|r.lines| - 1];
      assert (picked + [line])[..|picked|] == picked && picked + [line] + [] == picked + [line];
    case Forwarding(_) =>
  }

  /** Every report tells whether the last transmission before it was acknowledged. */
  lemma {:induction false} ReportsTellLink(ops: seq<Op>)
    ensures LinksIn(Pick(Run(NEW_BASE, ops).lines, Reports)) == LinksAtReports(ops)
  {
    if ops != [] {
      var n := |ops| - 1;
      ReportsTellLink(ops[..n]);
      RunBooks(ops[..n]);
      ApplyReports(Run(NEW_BASE, ops[..n]), ops[n]);
    }
  }

  // ---------------------------------------------------------------------------
  // Totals
  // ---------------------------------------------------------------------------

  function Total(ts: seq<Tally>): Tally {
    if ts == [] then Tally(0, 0)
    else
      var t, last := Total(ts[..|ts| - 1]), ts[|ts| - 1];
      Tally(t.sent + last.sent, t.ok + last.ok)
  }

  function Delivered(link: seq<bool>): nat {
    if link == [] then 0 else Delivered(link[..|link| - 1]) + if link[|link| - 1] then 1 else 0
  }

  /** No transmission is missing from the windows or in two of them. */
  lemma {:induction false} WindowsPartition(ops: seq<Op>)
    ensures var all, open, link := Total(Closed(ops)), Open(ops), Deliveries(ops);
            all.sent + open.sent == |link| && all.ok + open.ok == Delivered(link)
  {
    if ops != [] {
      var n := |ops| - 1;
      WindowsPartition(ops[..n]);
      var link, closed, open := Deliveries(ops[..n]), Closed(ops[..n]), Open(ops[..n]);
      assert link + [] == link && closed + [] == closed;
      if !ops[n].Forwarding? {
        OneDelivery(link, ops[n].delivered);
      }
      if ops[n].ReportStats? {
        OneTotal(closed, open);
      }
    }
  }

  lemma OneDelivery(link: seq<bool>, delivered: bool)
    ensures Delivered(link + [delivered]) == Delivered(link) + if delivered then 1 else 0
  {
    assert (link + [delivered])[..|link|] == link;
  }

  lemma OneTotal(ts: seq<Tally>, t: Tally)
    ensures Total(ts + [t]) == Tally(Total(ts).sent + t.sent, Total(ts).ok + t.ok)
  {
    assert (ts + [t])[..|ts|] == ts;
  }

  /** The report of a window is its true count exactly when that is below 2^32. */
  lemma ReportsExactIff(ops: seq<Op>, k: nat)
    requires k < |Closed(ops)|
    ensures var reported, t := RfLines(Run(NEW_BASE, ops).lines), Closed(ops)[k];
            && |reported| == |Closed(ops)|
            && (reported[k].sent == t.sent <==> t.sent < 0x1_0000_0000)
            && (reported[k].ok == t.ok <==> t.ok < 0x1_0000_0000)
            && t.ok <= t.sent
            && (t.sent < 0x1_0000_0000 ==> reported[k] == Figures(t.sent, t.ok, t.sent - t.ok))
  {
    RunBooks(ops);
    ClosedSound(ops, k);
  }

  lemma {:induction false} ClosedSound(ops: seq<Op>, k: nat)
    requires k < |Closed(ops)|
    ensures Closed(ops)[k].ok <= Closed(ops)[k].sent
  {
    var n := |ops| - 1;
    if k < |Closed(ops[..n])| {
      ClosedSound(ops[..n], k);
    } else {
      RunBooks(ops[..n]);
    }
  }

  // ---------------------------------------------------------------------------
  // The object
  // ---------------------------------------------------------------------------

  class BaseState {
    var commandSequence: uint8
    var linkUp: bool
    var forwardOn: bool
    var forwardIntervalMs: nat
    var nextForward: Time
    var haveState: bool
    var lastState: uint8
    var txTotal: uint32
    var txOk: uint32
    var txTotalAtReport: uint32
    var txOkAtReport: uint32
    var lines: seq<Line>

    function Value(): Base
      reads this
    {
      Base(commandSequence, linkUp, D.Decimator(forwardOn, forwardIntervalMs, nextForward),
           if haveState then Some(lastState) else None,
           txTotal, txOk, txTotalAtReport, txOkAtReport, lines)
    }

    constructor ()
      ensures Value() == NEW_BASE
    {
      commandSequence, linkUp, forwardOn, forwardIntervalMs, nextForward := 0, false, false, 0, 0;
      haveState, lastState := false, 0;
      txTotal, txOk, txTotalAtReport, txOkAtReport, lines := 0, 0, 0, 0, [];
    }

    method TelemetryOff()
      modifies this`forwardOn
      ensures Value() == Apply(old(Value()), Forwarding(D.Off))
    {
      forwardOn := false;
    }

    method TelemetryEveryFrame()
      modifies this`forwardOn, this`forwardIntervalMs
      ensures Value() == Apply(old(Value()), Forwarding(D.EveryFrame))
    {
      forwardOn := true;
      forwardIntervalMs := 0;
    }

    method TelemetryRate(hz: nat, now: Time)
      modifies this`forwardOn, this`forwardIntervalMs, this`nextForward
      ensures Value() == Apply(old(Value()), Forwarding(D.Hertz(hz, now)))
    {
      forwardOn := true;
      forwardIntervalMs := if hz != 0 then 1000 / hz else 0;
      nextForward := now;
    }

    method ForwardTelemetryDue(clock: D.Arrival) returns (due: bool)
      modifies this`nextForward
      ensures due == D.Due(old(Value()).decimator, clock)
      ensures Value() == old(Value()).(decimator := D.After(old(Value()).decimator, clock))
    {
      if !forwardOn {
        return false;
      }
      if forwardIntervalMs == 0 {
        return true;
      }
      if clock.now < nextForward {
        return false;
      }
      nextForward := clock.later + 1000 * forwardIntervalMs;
      return true;
    }

    method ObserveTelemetryState(state: uint8)
      modifies this`haveState, this`lastState, this`lines
      ensures Value() == Observe(old(Value()), state)
    {
      if haveState && state != lastState {
        lines := lines + [StateEvent(lastState, state)];
      }
      haveState := true;
      lastState := state;
    }

    method DispatchDownlinkFrame(m: Downlinked)
      modifies this
      ensures Value() == Dispatch(old(Value()), m)
    {
      if |m.frame| == 0 {
        return;
      }
      if !KnownType(m.frame[0]) {
        lines := lines + [UnknownFrame(m.frame[0], |m.frame|)];
        return;
      }
      var parsed := ParseReply(m.frame);
      match parsed {
        case None =>
        case Some(r) =>
          if r.Telemetry? {
            ObserveTelemetryState(r.state);
            var due := ForwardTelemetryDue(m.clock);
            if due {
              lines := lines + [TelemetryLine(r, m.clock.now)];
            }
          } else {
            lines := lines + [DataLine(r)];
          }
      }
    }

    method UpdateLinkState(delivered: bool)
      modifies this`txTotal, this`txOk, this`linkUp, this`lines
      ensures Value() == UpdateLink(old(Value()), delivered)
    {
      txTotal := Inc(txTotal);
      if delivered {
        txOk := Inc(txOk);
      }
      if !delivered {
        if linkUp {
          linkUp := false;
          lines := lines + [LinkDown];
        }
        return;
      }
      if !linkUp {
        linkUp := true;
        lines := lines + [LinkUp];
      }
    }

    method DrainDownlink(ms: seq<Downlinked>)
      modifies this
      ensures Value() == Drain(old(Value()), ms)
    {
      var i := 0;
      while i < |ms|
        invariant 0 <= i <= |ms|
        invariant Drain(Value(), ms[i..]) == Drain(old(Value()), ms)
      {
        if |ms[i].frame| == 0 {
          return;
        }
        assert ms[i..][1..] == ms[i + 1..];
        DispatchDownlinkFrame(ms[i]);
        i := i + 1;
      }
    }

    method TransmitFrame(delivered: bool, ms: seq<Downlinked>)
      modifies this
      ensures Value() == Transmit(old(Value()), delivered, ms)
    {
      UpdateLinkState(delivered);
      if delivered {
        DrainDownlink(ms);
      }
    }

    /** The frame put on the air, and what the radio made of it. */
    method TxRequest(r: WireFormat.Request, delivered: bool, ms: seq<Downlinked>) returns (frame: Bytes)
      modifies this
      ensures frame == Encode(r, old(commandSequence))
      ensures Value() == Apply(old(Value()), Send(delivered, ms))
    {
      frame := Encode(r, commandSequence);
      commandSequence := (commandSequence + 1) % 0x100;
      ghost var stamped := Value();
      assert stamped == old(Value()).(sequence := (old(Value()).sequence + 1) % 0x100);
      TransmitFrame(delivered, ms);
      assert Value() == Transmit(stamped, delivered, ms);
    }

    method ReportRfStats(delivered: bool, ms: seq<Downlinked>) returns (frame: Bytes)
      modifies this
      ensures frame == Encode(GetPa, old(commandSequence))
      ensures Value() == Apply(old(Value()), ReportStats(delivered, ms))
    {
      var sent, ok := Wrap32(txTotal - txTotalAtReport), Wrap32(txOk - txOkAtReport);
      txTotalAtReport := txTotal;
      txOkAtReport := txOk;
      lines := lines + [RfLine(linkUp, sent, ok, Wrap32((sent as int) - ok))];
      assert Value() == Report(old(Value()));
      frame := TxRequest(GetPa, delivered, ms);
    }
  }
}

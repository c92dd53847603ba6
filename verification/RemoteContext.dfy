/** The base station's record of one remote: at most one pending command, its deadline and its counters. */
module RemoteContext {
  import opened Bits
  import opened Packet
  import opened Counters

  const COMMAND_TIMEOUT_US := 150_000
  const GETSTAT_SIZE := 11

  datatype Pending = Pending(waiting: bool, command: Command, started: Time, deadline: Time)

  /** What a GETSTAT answer reports. */
  datatype Status = Status(
    moveValue: int8, uptimeS: uint32, commandsReceived: uint32, lastCommand: uint8, txPower: uint8)

  datatype Statistics = Statistics(
    txOk: uint32, txFailed: uint32, retransmits: uint32,
    sent: uint32, acked: uint32, timeouts: uint32, received: uint32,
    responseTxFailed: uint32, unexpected: uint32,
    totalResponseUs: uint64, maximumResponseUs: uint32)

  datatype Context = Context(
    pending: Pending, connected: bool, seen: bool,
    moveValue: int8, lastCommand: uint8,
    statusValid: bool, reportedUptimeS: uint32, reportedReceived: uint32, reportedTxPower: uint8,
    pingSeq: uint8, stats: Statistics)

  datatype TxReport = TxReport(ok: bool, retransmits: uint8)

  const NO_STATISTICS := Statistics(0, 0, 0, 0, 0, 0, 0, 0, 0, 0, 0)
  const NEW_CONTEXT :=
    Context(Pending(false, Command(0, 0), 0, 0), false, false, 0, 0, false, 0, 0, 0, 0, NO_STATISTICS)

  // ---------------------------------------------------------------------------
  // GETSTAT data
  // ---------------------------------------------------------------------------

  function ReadU32(data: seq<uint8>): uint32
    requires |data| == 4
  {
    data[0] as int + 0x100 * (data[1] as int) + 0x1_0000 * (data[2] as int) + 0x100_0000 * (data[3] as int)
  }

  function WriteU32(x: uint32): (data: seq<uint8>)
    ensures |data| == 4
  {
    [x % 0x100, x / 0x100 % 0x100, x / 0x1_0000 % 0x100, x / 0x100_0000]
  }

  function StatusData(s: Status): (data: seq<uint8>)
    ensures |data| == GETSTAT_SIZE
  {
    [ToUint8(s.moveValue)] + WriteU32(s.uptimeS) + WriteU32(s.commandsReceived) + [s.lastCommand, s.txPower]
  }

  function ReadStatus(data: seq<uint8>): Status
    requires |data| == GETSTAT_SIZE
  {
    Status(ToInt8(data[0]), ReadU32(data[1..5]), ReadU32(data[5..9]), data[9], data[10])
  }

  /** The eleven bytes of a status: multi-byte numbers are little-endian. */
  lemma StatusLayout(s: Status)
    ensures var d := StatusData(s);
            && |d| == 11
            && d[0] == (s.moveValue as int) % 256
            && (d[1] as int) + 256 * (d[2] as int) + 65536 * (d[3] as int) + 16777216 * (d[4] as int) == s.uptimeS
            && (d[5] as int) + 256 * (d[6] as int) + 65536 * (d[7] as int) + 16777216 * (d[8] as int)
               == s.commandsReceived
            && d[9] == s.lastCommand && d[10] == s.txPower
  {
    U32RoundTrip(s.uptimeS);
    U32RoundTrip(s.commandsReceived);
    assert s.moveValue < 0 ==> (s.moveValue as int) % 256 == (s.moveValue as int) + 256;
  }

  lemma U32RoundTrip(x: uint32)
    ensures ReadU32(WriteU32(x)) == x
  {
    assert x / 0x100 / 0x100 == x / 0x1_0000 && x / 0x1_0000 / 0x100 == x / 0x100_0000;
  }

  lemma StatusRoundTrip(s: Status)
    ensures ReadStatus(StatusData(s)) == s
  {
    var data := StatusData(s);
    assert data[1..5] == WriteU32(s.uptimeS) && data[5..9] == WriteU32(s.commandsReceived);
    U32RoundTrip(s.uptimeS);
    U32RoundTrip(s.commandsReceived);
  }

  // ---------------------------------------------------------------------------
  // Operations
  // ---------------------------------------------------------------------------

  function CountTransmit(s: Statistics, report: TxReport): Statistics {
    var s := s.(retransmits := Wrap32(s.retransmits + report.retransmits));
    if report.ok then s.(txOk := Inc(s.txOk)) else s.(txFailed := Inc(s.txFailed))
  }

  datatype Step =
    | Send(command: Command, started: Time, dated: Time, report: TxReport)
    | Receive(response: Response, now: Time)
    | Expire(now: Time)
    | ResetStatistics

  /** The pending command this response answers: all but GETSTAT and GETVER must echo the argument. */
  predicate Matches(c: Context, r: Response) {
    && c.pending.waiting
    && r.command == c.pending.command.command
    && (r.command == GETSTAT || r.command == GETVER || r.argument == c.pending.command.argument)
  }

  predicate Expired(c: Context, now: Time) {
    c.pending.waiting && now >= c.pending.deadline
  }

  function RecordResponse(s: Statistics, responseUs: uint32): Statistics {
    s.(totalResponseUs := Wrap64(s.totalResponseUs + responseUs),
       maximumResponseUs := if responseUs > s.maximumResponseUs then responseUs else s.maximumResponseUs,
       acked := Inc(s.acked))
  }

  /** What an accepted response changes beyond completing the command. */
  function Absorb(c: Context, r: Response): Context {
    if r.command == GETSTAT then
      if |r.data| != GETSTAT_SIZE then c
      else
        var s := ReadStatus(r.data);
        c.(moveValue := s.moveValue, reportedUptimeS := s.uptimeS, reportedReceived := s.commandsReceived,
           lastCommand := s.lastCommand, reportedTxPower := s.txPower, statusValid := true)
    else if r.command == GETVER then c
    else
      var c := c.(lastCommand := r.command);
      if r.command == MOVE then c.(moveValue := r.argument)
      else if r.command == STOP then c.(moveValue := 0)
      else if r.command == PING then c.(pingSeq := (c.pingSeq + 1) % 0x100)
      else c
  }

  function Apply(c: Context, step: Step): Context {
    match step
    case Send(command, started, dated, report) =>
      if c.pending.waiting then c
      else
        c.(pending := Pending(true, command, started, dated + COMMAND_TIMEOUT_US),
           seen := true,
           stats := CountTransmit(c.stats.(sent := Inc(c.stats.sent)), report))
    case Receive(r, now) =>
      if !Matches(c, r) then c.(seen := true, stats := c.stats.(unexpected := Inc(c.stats.unexpected)))
      else
        Absorb(
          c.(seen := true, connected := true, pending := c.pending.(waiting := false),
             stats := RecordResponse(c.stats, Wrap32(now - c.pending.started))), r)
    case Expire(now) =>
      if !Expired(c, now) then c
      else
        c.(connected := false, pending := c.pending.(waiting := false),
           stats := c.stats.(timeouts := Inc(c.stats.timeouts)))
    case ResetStatistics => c.(stats := NO_STATISTICS)
  }

  function Run(c: Context, steps: seq<Step>): Context {
    if steps == [] then c else Apply(Run(c, steps[..|steps| - 1]), steps[|steps| - 1])
  }

  // ---------------------------------------------------------------------------
  // Conservation
  // ---------------------------------------------------------------------------

  function One(b: bool): nat {
    if b then 1 else 0
  }

  /** Whether a command was pending when the statistics were last reset, or at the start. */
  predicate PendingAtReset(c: Context, steps: seq<Step>) {
    if steps == [] then c.pending.waiting
    else
      var before := steps[..|steps| - 1];
      if steps[|steps| - 1].ResetStatistics? then Run(c, before).pending.waiting else PendingAtReset(c, before)
  }

  /** The accepted responses since the last reset. */
  function Accepted(c: Context, steps: seq<Step>): nat {
    if steps == [] then 0
    else
      var n := |steps| - 1;
      match steps[n]
      case ResetStatistics => 0
      case Receive(r, _) => Accepted(c, steps[..n]) + One(Matches(Run(c, steps[..n]), r))
      case _ => Accepted(c, steps[..n])
  }

  /** The books balance, modulo the counters' width; p tells whether a command was pending at the reset. */
  predicate Balanced(c: Context, p: bool) {
    Same32(c.stats.sent + One(p), c.stats.acked + c.stats.timeouts + One(c.pending.waiting))
  }

  /** The counters of commands, and whether one is pending. */
  predicate Books(c: Context, sent: uint32, acked: uint32, timeouts: uint32, waiting: bool) {
    c.stats.sent == sent && c.stats.acked == acked && c.stats.timeouts == timeouts && c.pending.waiting == waiting
  }

  lemma BooksAfter(c: Context, step: Step)
    requires !step.ResetStatistics?
    ensures var s, w, d := c.stats, c.pending.waiting, Apply(c, step);
            match step
            case Send(_, _, _, _) => Books(d, if w then s.sent else Inc(s.sent), s.acked, s.timeouts, true)
            case Receive(r, _) =>
              Books(d, s.sent, if Matches(c, r) then Inc(s.acked) else s.acked, s.timeouts, w && !Matches(c, r))
            case Expire(now) =>
              Books(d, s.sent, s.acked, if Expired(c, now) then Inc(s.timeouts) else s.timeouts, w && !Expired(c, now))
            case ResetStatistics => true
  {
    if step.Receive? && Matches(c, step.response) {
      AbsorbKeeps(
        c.(seen := true, connected := true, pending := c.pending.(waiting := false),
           stats := RecordResponse(c.stats, Wrap32(step.now - c.pending.started))), step.response);
    }
  }

  /** The books balance up to so many turns of the counters. */
  predicate BalancedBy(c: Context, p: bool, turns: int) {
    c.stats.sent + One(p) == c.stats.acked + c.stats.timeouts + One(c.pending.waiting) + 0x1_0000_0000 * turns
  }

  /** A command starts pending, or a pending one ends: both sides move together. */
  lemma BalancedStep(c: Context, step: Step, p: bool, turns: int) returns (next: int)
    requires BalancedBy(c, p, turns) && !step.ResetStatistics?
    ensures BalancedBy(Apply(c, step), p, next)
  {
    var s := c.stats;
    BooksAfter(c, step);
    IncIs(s.sent);
    IncIs(s.acked);
    IncIs(s.timeouts);
    match step
    case Send(_, _, _, _) => next := if !c.pending.waiting && s.sent == 0xFFFF_FFFF then turns - 1 else turns;
    case Receive(r, _) => next := if Matches(c, r) && s.acked == 0xFFFF_FFFF then turns + 1 else turns;
    case Expire(now) => next := if Expired(c, now) && s.timeouts == 0xFFFF_FFFF then turns + 1 else turns;
  }

  lemma AbsorbKeeps(c: Context, r: Response)
    ensures Absorb(c, r).stats == c.stats && Absorb(c, r).pending == c.pending
  {
  }

  lemma {:induction false} BooksBalance(c: Context, steps: seq<Step>) returns (turns: int)
    requires c.stats == NO_STATISTICS
    ensures BalancedBy(Run(c, steps), PendingAtReset(c, steps), turns)
  {
    if steps == [] {
      return 0;
    }
    var n := |steps| - 1;
    turns := BooksBalance(c, steps[..n]);
    if steps[n].ResetStatistics? {
      turns := 0;
    } else {
      turns := BalancedStep(Run(c, steps[..n]), steps[n], PendingAtReset(c, steps[..n]), turns);
    }
  }

  /** Every command sent is acknowledged, timed out or pending. */
  lemma CommandsConserved(c: Context, steps: seq<Step>)
    requires c.stats == NO_STATISTICS
    ensures Balanced(Run(c, steps), PendingAtReset(c, steps))
  {
    var turns := BooksBalance(c, steps);
    BalancedAfterTurns(Run(c, steps), PendingAtReset(c, steps), turns);
  }

  lemma BalancedAfterTurns(c: Context, p: bool, turns: int)
    requires BalancedBy(c, p, turns)
    ensures Balanced(c, p)
  {
    SameBy(c.stats.sent + One(p), c.stats.acked + c.stats.timeouts + One(c.pending.waiting), turns);
  }

  predicate TimesBounded(s: Statistics, accepted: nat) {
    s.acked == accepted && s.totalResponseUs <= s.acked * s.maximumResponseUs
  }

  lemma TimesBoundedStep(c: Context, step: Step, accepted: nat)
    requires TimesBounded(c.stats, accepted) && !step.ResetStatistics?
    requires accepted + One(step.Receive? && Matches(c, step.response)) < 0x1_0000_0000
    ensures TimesBounded(Apply(c, step).stats, accepted + One(step.Receive? && Matches(c, step.response)))
  {
    if step.Receive? && Matches(c, step.response) {
      TotalStep(c.stats, Wrap32(step.now - c.pending.started));
    }
  }

  /** Fewer than 2^32 responses have been accepted since any reset so far. */
  predicate CountsFit(c: Context, steps: seq<Step>) {
    Accepted(c, steps) < 0x1_0000_0000 && (steps == [] || CountsFit(c, steps[..|steps| - 1]))
  }

  /** While the counts fit, the total response time is at most their number times the maximum. */
  lemma {:induction false} ResponseTimeBounded(c: Context, steps: seq<Step>)
    requires c.stats == NO_STATISTICS && CountsFit(c, steps)
    ensures TimesBounded(Run(c, steps).stats, Accepted(c, steps))
  {
    if steps != [] {
      var n := |steps| - 1;
      ResponseTimeBounded(c, steps[..n]);
      if !steps[n].ResetStatistics? {
        TimesBoundedStep(Run(c, steps[..n]), steps[n], Accepted(c, steps[..n]));
      }
    }
  }

  lemma TotalStep(s: Statistics, us: uint32)
    requires s.acked < 0xFFFF_FFFF && s.totalResponseUs <= s.acked * s.maximumResponseUs
    ensures var t := RecordResponse(s, us);
            t.acked == s.acked + 1 && t.totalResponseUs <= t.acked * t.maximumResponseUs
  {
    var m := if us > s.maximumResponseUs then us else s.maximumResponseUs;
    MulMonotone(s.acked, s.maximumResponseUs, m);
    MulMonotone(m, s.acked + 1, 0xFFFF_FFFF);
    assert s.acked * m + m == (s.acked + 1) * m;
  }

  lemma MulMonotone(a: nat, b: nat, c: nat)
    requires b <= c
    ensures a * b <= a * c
  {
  }

  // ---------------------------------------------------------------------------
  // Counters, flags and beliefs
  // ---------------------------------------------------------------------------

  /** What the counters count since the last reset. */
  datatype Kind = Delivered | Undelivered | Retransmissions | Sent | Answered | TimedOut | Unexpected

  function Counter(s: Statistics, kind: Kind): uint32 {
    match kind
    case Delivered => s.txOk
    case Undelivered => s.txFailed
    case Retransmissions => s.retransmits
    case Sent => s.sent
    case Answered => s.acked
    case TimedOut => s.timeouts
    case Unexpected => s.unexpected
  }

  /** What a step adds: every command sent is transmitted once. */
  function Adds(c: Context, step: Step, kind: Kind): nat {
    match step
    case Send(_, _, _, report) =>
      if c.pending.waiting then 0
      else
        (match kind
         case Delivered => One(report.ok)
         case Undelivered => One(!report.ok)
         case Retransmissions => report.retransmits
         case Sent => 1
         case _ => 0)
    case Receive(r, _) =>
      if kind.Answered? then One(Matches(c, r)) else if kind.Unexpected? then One(!Matches(c, r)) else 0
    case Expire(now) => if kind.TimedOut? then One(Expired(c, now)) else 0
    case ResetStatistics => 0
  }

  function Added(c: Context, steps: seq<Step>, kind: Kind): nat {
    if steps == [] then 0
    else
      var n := |steps| - 1;
      if steps[n].ResetStatistics? then 0
      else Added(c, steps[..n], kind) + Adds(Run(c, steps[..n]), steps[n], kind)
  }

  /** The counter stands at n, but for so many turns. */
  predicate CountedBy(c: Context, kind: Kind, n: nat, turns: int) {
    Counter(c.stats, kind) == n - 0x1_0000_0000 * turns
  }

  lemma WrapTurns(x: nat) returns (turns: nat)
    ensures Wrap32(x) == x - 0x1_0000_0000 * turns
  {
    turns := x / 0x1_0000_0000;
  }

  lemma CounterAfter(c: Context, step: Step, kind: Kind)
    requires !step.ResetStatistics?
    ensures Counter(Apply(c, step).stats, kind) == Wrap32(Counter(c.stats, kind) + Adds(c, step, kind))
  {
    if step.Receive? && Matches(c, step.response) {
      AbsorbKeeps(
        c.(seen := true, connected := true, pending := c.pending.(waiting := false),
           stats := RecordResponse(c.stats, Wrap32(step.now - c.pending.started))), step.response);
    }
  }

  lemma CounterStep(c: Context, step: Step, kind: Kind, n: nat, turns: int) returns (next: int)
    requires CountedBy(c, kind, n, turns) && !step.ResetStatistics?
    ensures CountedBy(Apply(c, step), kind, n + Adds(c, step, kind), next)
  {
    CounterAfter(c, step, kind);
    var more := WrapTurns(Counter(c.stats, kind) + Adds(c, step, kind));
    next := turns + more;
  }

  lemma {:induction false} CounterTurns(c: Context, steps: seq<Step>, kind: Kind) returns (turns: int)
    requires c.stats == NO_STATISTICS
    ensures CountedBy(Run(c, steps), kind, Added(c, steps, kind), turns)
  {
    if steps == [] {
      return 0;
    }
    var n := |steps| - 1;
    turns := CounterTurns(c, steps[..n], kind);
    if steps[n].ResetStatistics? {
      turns := 0;
    } else {
      turns := CounterStep(Run(c, steps[..n]), steps[n], kind, Added(c, steps[..n], kind), turns);
    }
  }

  /** On every run each counter counts what it is for since the last reset, modulo 2^32. */
  lemma CountersKept(c: Context, steps: seq<Step>, kind: Kind)
    requires c.stats == NO_STATISTICS
    ensures Same32(Counter(Run(c, steps).stats, kind), Added(c, steps, kind))
  {
    var turns := CounterTurns(c, steps, kind);
    SameBy(Counter(Run(c, steps).stats, kind), Added(c, steps, kind), -turns);
  }

  /** The responses accepted on a run. */
  function AcceptedOn(c: Context, steps: seq<Step>): seq<Response> {
    if steps == [] then []
    else
      var n := |steps| - 1;
      AcceptedOn(c, steps[..n]) + AcceptedBy(Run(c, steps[..n]), steps[n])
  }

  function AcceptedBy(c: Context, step: Step): seq<Response> {
    if step.Receive? && Matches(c, step.response) then [step.response] else []
  }

  /** What the responses accepted let the base believe of the remote. */
  datatype Belief = Belief(
    moveValue: int8, lastCommand: uint8, statusValid: bool, uptimeS: int, received: int, txPower: uint8, pings: nat)

  function Word32(d: seq<uint8>, i: nat): int
    requires i + 4 <= |d|
  {
    (d[i] as int) + 256 * (d[i + 1] as int) + 65536 * (d[i + 2] as int) + 16777216 * (d[i + 3] as int)
  }

  function BelievedFrom(b: Belief, r: Response): Belief {
    if r.command == 0x01 then
      if |r.data| != 11 then b
      else Belief(if r.data[0] < 128 then r.data[0] else (r.data[0] as int) - 256,
                  r.data[9], true, Word32(r.data, 1), Word32(r.data, 5), r.data[10], b.pings)
    else if r.command == 0x03 then b
    else
      b.(lastCommand := r.command,
         moveValue := if r.command == 0x0A then r.argument else if r.command == 0x0B then 0 else b.moveValue,
         pings := if r.command == 0x02 then b.pings + 1 else b.pings)
  }

  function Believed(accepted: seq<Response>): Belief {
    if accepted == [] then Belief(0, 0, false, 0, 0, 0, 0)
    else BelievedFrom(Believed(accepted[..|accepted| - 1]), accepted[|accepted| - 1])
  }

  predicate Holds(c: Context, b: Belief) {
    && c.moveValue == b.moveValue && c.lastCommand == b.lastCommand && c.statusValid == b.statusValid
    && c.reportedUptimeS == b.uptimeS && c.reportedReceived == b.received && c.reportedTxPower == b.txPower
    && c.pingSeq == b.pings % 256
  }

  lemma NextPing(n: nat)
    ensures (n % 256 + 1) % 256 == (n + 1) % 256
  {
  }

  lemma AbsorbHolds(c: Context, b: Belief, r: Response)
    requires Holds(c, b)
    ensures Holds(Absorb(c, r), BelievedFrom(b, r))
  {
    NextPing(b.pings);
    if r.command == GETSTAT && |r.data| == GETSTAT_SIZE {
      var d := r.data;
      assert d[1..5] == [d[1], d[2], d[3], d[4]] && d[5..9] == [d[5], d[6], d[7], d[8]];
    }
  }

  /** On every run the base's beliefs are those the accepted responses give, the last one deciding. */
  lemma {:induction false} BeliefsKept(steps: seq<Step>)
    ensures Holds(Run(NEW_CONTEXT, steps), Believed(AcceptedOn(NEW_CONTEXT, steps)))
  {
    if steps != [] {
      var n := |steps| - 1;
      BeliefsKept(steps[..n]);
      var c, accepted := Run(NEW_CONTEXT, steps[..n]), AcceptedOn(NEW_CONTEXT, steps[..n]);
      BelievedMore(accepted, AcceptedBy(c, steps[n]));
      BeliefStep(c, steps[n], Believed(accepted));
    }
  }

  lemma BelievedMore(accepted: seq<Response>, more: seq<Response>)
    requires |more| <= 1
    ensures Believed(accepted + more) ==
            if more == [] then Believed(accepted) else BelievedFrom(Believed(accepted), more[0])
  {
    if more == [] {
      assert accepted + more == accepted;
    } else {
      assert (accepted + more)[..|accepted|] == accepted;
    }
  }

  lemma BeliefStep(c: Context, step: Step, b: Belief)
    requires Holds(c, b)
    ensures var accepted := AcceptedBy(c, step);
            Holds(Apply(c, step), if accepted == [] then b else BelievedFrom(b, accepted[0]))
  {
    if AcceptedBy(c, step) != [] {
      AbsorbHolds(
        c.(seen := true, connected := true, pending := c.pending.(waiting := false),
           stats := RecordResponse(c.stats, Wrap32(step.now - c.pending.started))), b, step.response);
    }
  }

  /** Whether the remote last answered, rather than let a command time out. */
  function LastAnswered(steps: seq<Step>): bool {
    if steps == [] then false
    else
      var n := |steps| - 1;
      var c := Run(NEW_CONTEXT, steps[..n]);
      if steps[n].Receive? && Matches(c, steps[n].response) then true
      else if steps[n].Expire? && Expired(c, steps[n].now) then false
      else LastAnswered(steps[..n])
  }

  predicate Touches(step: Step) {
    step.Receive? || step.Send?
  }

  /** On every run: connected after an answer and not after a timeout; seen from the first command or response on. */
  lemma {:induction false} FlagsKept(steps: seq<Step>)
    ensures Run(NEW_CONTEXT, steps).connected == LastAnswered(steps)
    ensures Run(NEW_CONTEXT, steps).seen <==> exists step :: step in steps && Touches(step)
    ensures Run(NEW_CONTEXT, steps).pending.waiting ==> Run(NEW_CONTEXT, steps).seen
  {
    if steps != [] {
      var n := |steps| - 1;
      FlagsKept(steps[..n]);
      LastOf(steps);
      FlagStep(Run(NEW_CONTEXT, steps[..n]), steps[n]);
    }
  }

  lemma FlagStep(c: Context, step: Step)
    requires c.pending.waiting ==> c.seen
    ensures var d := Apply(c, step);
            && d.seen == (c.seen || Touches(step)) && (d.pending.waiting ==> d.seen)
            && d.connected == (if step.Receive? && Matches(c, step.response) then true
                               else if step.Expire? && Expired(c, step.now) then false else c.connected)
  {
  }

  // ---------------------------------------------------------------------------
  // Response times
  // ---------------------------------------------------------------------------

  /** The time a response took, if it is accepted: from the reading at the send to the one at the arrival. */
  function TimeOf(c: Context, step: Step): seq<uint32> {
    if step.Receive? && Matches(c, step.response) then [Wrap32(step.now - c.pending.started)] else []
  }

  /** The times of the responses accepted since the last reset. */
  function Times(c: Context, steps: seq<Step>): seq<uint32> {
    if steps == [] then []
    else
      var n := |steps| - 1;
      if steps[n].ResetStatistics? then [] else Times(c, steps[..n]) + TimeOf(Run(c, steps[..n]), steps[n])
  }

  function Sum(times: seq<uint32>): nat {
    if times == [] then 0 else Sum(times[..|times| - 1]) + times[|times| - 1]
  }

  /** The greatest of them, or zero if there is none. */
  ghost predicate IsMaximum(m: uint32, times: seq<uint32>) {
    (forall i :: 0 <= i < |times| ==> times[i] <= m) && (m == 0 || m in times)
  }

  /** The counters of response times agree with the times themselves, the total and the count modulo their width. */
  ghost predicate Timed(s: Statistics, times: seq<uint32>) {
    && s.acked == |times| % 0x1_0000_0000
    && s.totalResponseUs == Sum(times) % 0x1_0000_0000_0000_0000
    && IsMaximum(s.maximumResponseUs, times)
  }

  lemma CountModulo(x: nat, add: nat)
    ensures (x % 0x1_0000_0000 + add) % 0x1_0000_0000 == (x + add) % 0x1_0000_0000
  {
  }

  lemma TotalModulo(x: nat, add: nat)
    ensures (x % 0x1_0000_0000_0000_0000 + add) % 0x1_0000_0000_0000_0000 == (x + add) % 0x1_0000_0000_0000_0000
  {
  }

  lemma RecordTimed(s: Statistics, times: seq<uint32>, us: uint32)
    requires Timed(s, times)
    ensures Timed(RecordResponse(s, us), times + [us])
  {
    var more := times + [us];
    assert more[..|times|] == times;
    CountModulo(|times|, 1);
    TotalModulo(Sum(times), us);
    assert us in more && forall t :: t in times ==> t in more;
  }

  lemma StepTimed(c: Context, step: Step, times: seq<uint32>)
    requires Timed(c.stats, times) && !step.ResetStatistics?
    ensures Timed(Apply(c, step).stats, times + TimeOf(c, step))
  {
    assert times + [] == times;
    if TimeOf(c, step) != [] {
      var us := Wrap32(step.now - c.pending.started);
      RecordTimed(c.stats, times, us);
      AbsorbKeeps(
        c.(seen := true, connected := true, pending := c.pending.(waiting := false),
           stats := RecordResponse(c.stats, us)), step.response);
    }
  }

  /** On every run the total response time is the sum of the response times, and the maximum the greatest. */
  lemma {:induction false} ResponseTimesKept(c: Context, steps: seq<Step>)
    requires c.stats == NO_STATISTICS
    ensures Timed(Run(c, steps).stats, Times(c, steps))
  {
    if steps != [] {
      var n := |steps| - 1;
      ResponseTimesKept(c, steps[..n]);
      if !steps[n].ResetStatistics? {
        StepTimed(Run(c, steps[..n]), steps[n], Times(c, steps[..n]));
      }
    }
  }

  // ---------------------------------------------------------------------------
  // The timeout
  // ---------------------------------------------------------------------------

  /** No response completes the pending command, and no other command is sent in its place. */
  predicate Undisturbed(c: Context, steps: seq<Step>) {
    forall k :: 0 <= k < |steps| ==> Leaves(Run(c, steps[..k]), steps[k])
  }

  predicate Leaves(c: Context, step: Step) {
    (step.Receive? ==> !Matches(c, step.response)) && (step.Send? ==> c.pending.waiting)
  }

  /** No sweep has read a clock at the time or later. */
  predicate SweptBefore(steps: seq<Step>, time: Time) {
    forall step :: step in steps && step.Expire? ==> step.now < time
  }

  predicate NoReset(steps: seq<Step>) {
    forall step :: step in steps ==> !step.ResetStatistics?
  }

  /** A command sent, and what has become of it: pending as sent, or timed out, once. */
  ghost predicate PendingOr(
    c: Context, d: Context, command: Command, started: Time, dated: Time, before: bool, reset: bool)
  {
    && d.pending == Pending(before, command, started, dated + 150_000)
    && d.connected == (before && c.connected)
    && (!reset ==> d.stats.acked == c.stats.acked && d.stats.sent == Inc(c.stats.sent)
                   && d.stats.timeouts == if before then c.stats.timeouts else Inc(c.stats.timeouts))
  }

  lemma PendingStep(
    c: Context, d: Context, command: Command, started: Time, dated: Time, before: bool, reset: bool, step: Step)
    requires PendingOr(c, d, command, started, dated, before, reset) && Leaves(d, step)
    ensures PendingOr(c, Apply(d, step), command, started, dated,
                      before && !(step.Expire? && step.now >= dated + 150_000), reset || step.ResetStatistics?)
  {
  }

  /**
   * A command sent while none was pending, answered by nothing that matches and followed by no other: it is pending,
   * with its own command and start, exactly as long as every sweep has read a clock less than 150 ms past the reading
   * its deadline was dated from. Then it has timed out, counted once, and the remote is not connected.
   */
  lemma {:induction false} PendingUntilDeadline(
    c: Context, command: Command, started: Time, dated: Time, report: TxReport, steps: seq<Step>)
    requires !c.pending.waiting && Undisturbed(Apply(c, Send(command, started, dated, report)), steps)
    ensures PendingOr(c, Run(Apply(c, Send(command, started, dated, report)), steps), command, started, dated,
                      SweptBefore(steps, dated + 150_000), !NoReset(steps))
  {
    if steps != [] {
      var n := |steps| - 1;
      var sent := Apply(c, Send(command, started, dated, report));
      UndisturbedBefore(sent, steps);
      PendingUntilDeadline(c, command, started, dated, report, steps[..n]);
      PendingStep(c, Run(sent, steps[..n]), command, started, dated,
                  SweptBefore(steps[..n], dated + 150_000), !NoReset(steps[..n]), steps[n]);
      SweptMore(steps, dated + 150_000);
    }
  }

  lemma UndisturbedBefore(c: Context, steps: seq<Step>)
    requires steps != [] && Undisturbed(c, steps)
    ensures Undisturbed(c, steps[..|steps| - 1])
    ensures Leaves(Run(c, steps[..|steps| - 1]), steps[|steps| - 1])
  {
    var n := |steps| - 1;
    forall k | 0 <= k < n ensures Leaves(Run(c, steps[..n][..k]), steps[..n][k]) {
      assert steps[..n][..k] == steps[..k];
    }
  }

  lemma SweptMore(steps: seq<Step>, time: Time)
    requires steps != []
    ensures var before, last := steps[..|steps| - 1], steps[|steps| - 1];
            && (SweptBefore(steps, time) <==> SweptBefore(before, time) && !(last.Expire? && last.now >= time))
            && (NoReset(steps) <==> NoReset(before) && !last.ResetStatistics?)
  {
    LastOf(steps);
  }

  lemma LastOf<T>(a: seq<T>)
    requires a != []
    ensures forall x :: x in a <==> x in a[..|a| - 1] || x == a[|a| - 1]
  {
    assert a == a[..|a| - 1] + [a[|a| - 1]];
  }
}

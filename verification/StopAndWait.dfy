/**
 * One base context and one remote over two lossy FIFO channels. Channels may lose, delay and duplicate
 * frames but neither reorder nor forge them, and neither station restarts.
 *
 * The stations are reduced to what the exchange depends on; BaseRefines and RemoteRefines tie the
 * reductions to the full stations. Frames carry round numbers that never wrap. They and the counts in
 * Link are history only: no decision reads them.
 */
module StopAndWait {
  import opened Bits
  import opened Packet
  import opened Counters
  import Contexts = RemoteContext
  import Remotes = RemoteStation

  // ---------------------------------------------------------------------------
  // The stations
  // ---------------------------------------------------------------------------

  datatype Base = Base(waiting: bool, command: Command, sequence: uint8)
  datatype Remote = Remote(sequence: uint8, power: nat)

  function BaseOf(c: Contexts.Context): Base {
    Base(c.pending.waiting, c.pending.command, c.pingSeq)
  }

  function RemoteOf(r: Remotes.Remote): Remote {
    Remote(r.context.pingSeq, r.power)
  }

  predicate Matches(b: Base, r: Response) {
    && b.waiting && r.command == b.command.command
    && (CarriesData(r.command) || r.argument == b.command.argument)
  }

  function Accept(b: Base, r: Response): Base {
    if !Matches(b, r) then b
    else b.(waiting := false, sequence := if r.command == PING then (b.sequence + 1) % 0x100 else b.sequence)
  }

  predicate Repeated(r: Remote, c: Command) {
    c.command == PING && ToUint8(c.argument) == r.sequence
  }

  function Hear(r: Remote, c: Command): Remote {
    Remote(if c.command == PING then ToUint8(c.argument) else r.sequence,
           if Repeated(r, c) && r.power < 2 then r.power + 1 else r.power)
  }

  predicate Known(c: Command) {
    c.command in {GETSTAT, PING, GETVER, MOVE, STOP}
  }

  /** The base's full context takes these steps and no others. */
  lemma BaseRefines(c: Contexts.Context, step: Contexts.Step)
    ensures var b, b' := BaseOf(c), BaseOf(Contexts.Apply(c, step));
            match step
            case Send(command, _, _, _) => b' == if b.waiting then b else Base(true, command, b.sequence)
            case Receive(r, _) => b' == Accept(b, r) && (Contexts.Matches(c, r) <==> Matches(b, r))
            case Expire(now) => b' == if Contexts.Expired(c, now) then b.(waiting := false) else b
            case ResetStatistics => b' == b
  {
  }

  /** The full remote hears and answers as this one does. */
  lemma RemoteRefines(r: Remotes.Remote, id: uint8, c: Command, now: Time, report: Contexts.TxReport)
    ensures RemoteOf(Remotes.Handle(r, id, c, now, report)) == Hear(RemoteOf(r), c)
    ensures var reply := Remotes.Reply(Remotes.Act(Remotes.Count(r, c), c, now), id, c, now);
            && (reply.Some? <==> Known(c))
            && (reply.Some? ==> reply.value.command == c.command &&
                                (!CarriesData(c.command) ==> reply.value.argument == c.argument))
  {
  }

  // ---------------------------------------------------------------------------
  // The exchange
  // ---------------------------------------------------------------------------

  /** A command on its way to the remote or the answer to one on its way back; number is the command's own. */
  datatype Frame = Frame(command: uint8, argument: int8, round: nat, number: nat) {
    predicate IsPing() {
      command == PING
    }

    function Seq(): uint8 {
      ToUint8(argument)
    }
  }

  /**
   * accepted counts the pings the base has accepted, lastRound is the round of the ping heard last, lastNumber
   * the number of the command heard last, heard counts the pings the remote took as new; sent, completed and
   * handled count commands of every kind.
   */
  datatype Link = Link(
    base: Base, remote: Remote, down: seq<Frame>, up: seq<Frame>,
    accepted: nat, lastRound: nat, lastNumber: nat, heard: nat, sent: nat, completed: nat, handled: nat)

  const NEW_LINK := Link(Base(false, Command(0, 0), 0), Remote(0xFF, 0), [], [], 0, 0, 0, 0, 0, 0, 0)

  /** The answer to GETSTAT or GETVER has the data length in place of the argument. */
  datatype Step =
    | SendPing
    | SendOther(command: Command)
    | CommandArrives(length: int8)
    | ResponseArrives
    | Timeout
    | SetPower(level: nat)
    | LoseDown(i: nat) | LoseUp(i: nat)
    | DuplicateDown(i: nat) | DuplicateUp(i: nat)

  function Lose<T>(channel: seq<T>, i: nat): seq<T> {
    if i < |channel| then channel[..i] + channel[i + 1..] else channel
  }

  function Duplicate<T>(channel: seq<T>, i: nat): seq<T> {
    if i < |channel| then channel[..i + 1] + channel[i..] else channel
  }

  /** A frame leaves only if no command is pending; it is stamped with the base's current round and its number. */
  function Send(l: Link, c: Command): Link {
    if l.base.waiting then l
    else
      l.(base := Base(true, c, l.base.sequence), sent := l.sent + 1,
         down := l.down + [Frame(c.command, c.argument, l.accepted + 1, l.sent + 1)])
  }

  function AnswerTo(f: Frame, length: int8): Frame {
    f.(argument := if CarriesData(f.command) then length else f.argument)
  }

  function HearCommand(l: Link, length: int8): Link
    requires l.down != []
  {
    var f := l.down[0];
    var c := Command(f.command, f.argument);
    l.(remote := Hear(l.remote, c),
       down := l.down[1..],
       up := if Known(c) then l.up + [AnswerTo(f, length)] else l.up,
       lastRound := if f.IsPing() then f.round else l.lastRound, lastNumber := f.number,
       heard := if f.IsPing() && !Repeated(l.remote, c) then l.heard + 1 else l.heard,
       handled := l.handled + 1)
  }

  function HearResponse(l: Link): Link
    requires l.up != []
  {
    var f := l.up[0];
    var r := Response(0, f.command, f.argument, []);
    l.(base := Accept(l.base, r),
       up := l.up[1..],
       accepted := if f.IsPing() && Matches(l.base, r) then l.accepted + 1 else l.accepted,
       completed := if Matches(l.base, r) then l.completed + 1 else l.completed)
  }

  function Next(l: Link, step: Step): Link {
    match step
    case SendPing => Send(l, Command(PING, ToInt8(l.base.sequence)))
    case SendOther(c) => if c.command == PING then l else Send(l, c)
    case CommandArrives(length) => if l.down != [] then HearCommand(l, length) else l
    case ResponseArrives => if l.up != [] then HearResponse(l) else l
    case Timeout => l.(base := l.base.(waiting := false))
    case SetPower(level) => l.(remote := l.remote.(power := level))
    case LoseDown(i) => l.(down := Lose(l.down, i))
    case LoseUp(i) => l.(up := Lose(l.up, i))
    case DuplicateDown(i) => l.(down := Duplicate(l.down, i))
    case DuplicateUp(i) => l.(up := Duplicate(l.up, i))
  }

  function Run(l: Link, steps: seq<Step>): Link {
    if steps == [] then l else Next(Run(l, steps[..|steps| - 1]), steps[|steps| - 1])
  }

  // ---------------------------------------------------------------------------
  // The invariant
  // ---------------------------------------------------------------------------

  /** Round n carries sequence n - 1, modulo 256. */
  function SeqOf(round: nat): uint8 {
    (round + 0xFF) % 0x100
  }

  /** The pings among the frames carry their rounds' sequences, in rounds lo..hi, older rounds first. */
  ghost predicate Chain(frames: seq<Frame>, lo: nat, hi: nat) {
    && (forall i :: 0 <= i < |frames| && frames[i].IsPing() ==>
          lo <= frames[i].round <= hi && frames[i].Seq() == SeqOf(frames[i].round))
    && (forall i, j :: 0 <= i < j < |frames| && frames[i].IsPing() && frames[j].IsPing() ==>
          frames[i].round <= frames[j].round)
  }

  /** In flight to the base, at the remote, in flight to the remote, at the base: round a or a + 1 throughout. */
  ghost predicate Inv(l: Link) {
    && l.base.sequence == SeqOf(l.accepted + 1)
    && l.remote.sequence == SeqOf(l.lastRound)
    && l.accepted <= l.lastRound <= l.accepted + 1
    && l.heard == l.lastRound
    && Chain(l.up, l.accepted, l.lastRound)
    && Chain(l.down, l.lastRound, l.accepted + 1)
    && (l.base.waiting && l.base.command.command == PING ==> l.base.command.argument == ToInt8(l.base.sequence))
  }

  lemma ChainLose(frames: seq<Frame>, i: nat, lo: nat, hi: nat)
    requires Chain(frames, lo, hi)
    ensures Chain(Lose(frames, i), lo, hi)
  {
    var kept := Lose(frames, i);
    forall k | 0 <= k < |kept| ensures kept[k] == frames[if i < |frames| && k >= i then k + 1 else k] {
    }
  }

  lemma ChainDuplicate(frames: seq<Frame>, i: nat, lo: nat, hi: nat)
    requires Chain(frames, lo, hi)
    ensures Chain(Duplicate(frames, i), lo, hi)
  {
    var more := Duplicate(frames, i);
    forall k | 0 <= k < |more| ensures more[k] == frames[if i < |frames| && k > i then k - 1 else k] {
    }
  }

  lemma SeqsDiffer(round: nat, a: nat)
    requires a <= round <= a + 1
    ensures SeqOf(round) == SeqOf(a) <==> round == a
    ensures SeqOf(round) == SeqOf(a + 1) <==> round == a + 1
  {
  }

  /** Without its head, if that is a ping, a chain starts no earlier than the head's round. */
  lemma ChainTail(frames: seq<Frame>, lo: nat, hi: nat)
    requires frames != [] && Chain(frames, lo, hi)
    ensures Chain(frames[1..], if frames[0].IsPing() then frames[0].round else lo, hi)
  {
    assert forall k :: 0 <= k < |frames| - 1 ==> frames[1..][k] == frames[k + 1];
  }

  lemma ChainAppend(frames: seq<Frame>, f: Frame, lo: nat, hi: nat, top: nat)
    requires Chain(frames, lo, hi) && hi <= top
    requires f.IsPing() ==> lo <= f.round && hi <= f.round <= top && f.Seq() == SeqOf(f.round)
    ensures Chain(frames + [f], lo, top)
  {
    assert forall k :: 0 <= k < |frames| ==> (frames + [f])[k] == frames[k];
  }

  lemma SendKeeps(l: Link, c: Command)
    requires Inv(l) && (c.command == PING ==> c.argument == ToInt8(l.base.sequence))
    ensures Inv(Send(l, c))
  {
    if !l.base.waiting {
      var f := Frame(c.command, c.argument, l.accepted + 1, l.sent + 1);
      ChainAppend(l.down, f, l.lastRound, l.accepted + 1, l.accepted + 1);
    }
  }

  /** A ping is taken for a repeat exactly when it is one. */
  lemma RepeatDecided(l: Link)
    requires Inv(l) && l.down != [] && l.down[0].IsPing()
    ensures l.down[0].Seq() == l.remote.sequence <==> l.down[0].round == l.lastRound
  {
    ChainTail(l.down, l.lastRound, l.accepted + 1);
    SeqsDiffer(l.down[0].round, l.accepted);
    SeqsDiffer(l.lastRound, l.accepted);
  }

  /** Hearing a ping moves the remote to the ping's round. */
  lemma HearCommandKeeps(l: Link, length: int8)
    requires Inv(l) && l.down != []
    ensures Inv(HearCommand(l, length))
  {
    var f := l.down[0];
    ChainTail(l.down, l.lastRound, l.accepted + 1);
    if f.IsPing() {
      RepeatDecided(l);
      ChainAppend(l.up, f, l.accepted, l.lastRound, f.round);
    } else {
      ChainAppend(l.up, AnswerTo(f, length), l.accepted, l.lastRound, l.lastRound);
    }
  }

  /** A ping answer completes the pending ping exactly when it answers the current round. */
  lemma AnswerDecided(l: Link)
    requires Inv(l) && l.up != [] && l.up[0].IsPing()
    ensures Matches(l.base, Response(0, l.up[0].command, l.up[0].argument, [])) <==>
            l.base.waiting && l.base.command.command == PING && l.up[0].round == l.accepted + 1
  {
    ChainTail(l.up, l.accepted, l.lastRound);
    SeqsDiffer(l.up[0].round, l.accepted);
  }

  lemma HearPingAnswerKeeps(l: Link)
    requires Inv(l) && l.up != [] && l.up[0].IsPing()
    ensures Inv(HearResponse(l))
  {
    var l' := HearResponse(l);
    ChainTail(l.up, l.accepted, l.lastRound);
    AnswerDecided(l);
    ChainNarrow(l.up[1..], l.up[0].round, l'.accepted, l.lastRound);
    NextSeq(l.accepted + 1);
    InvFrom(l');
  }

  lemma NextSeq(round: nat)
    ensures (SeqOf(round) + 1) % 0x100 == SeqOf(round + 1)
  {
  }

  lemma InvFrom(l: Link)
    requires l.base.sequence == SeqOf(l.accepted + 1)
    requires l.remote.sequence == SeqOf(l.lastRound)
    requires l.accepted <= l.lastRound <= l.accepted + 1 && l.heard == l.lastRound
    requires Chain(l.up, l.accepted, l.lastRound)
    requires Chain(l.down, l.lastRound, l.accepted + 1)
    requires l.base.waiting && l.base.command.command == PING ==> l.base.command.argument == ToInt8(l.base.sequence)
    ensures Inv(l)
  {
  }

  lemma HearResponseKeeps(l: Link)
    requires Inv(l) && l.up != []
    ensures Inv(HearResponse(l))
  {
    if l.up[0].IsPing() {
      HearPingAnswerKeeps(l);
    } else {
      ChainTail(l.up, l.accepted, l.lastRound);
    }
  }

  lemma ChainNarrow(frames: seq<Frame>, from: nat, lo: nat, hi: nat)
    requires lo <= from && Chain(frames, from, hi)
    ensures Chain(frames, lo, hi)
  {
  }

  lemma NextKeeps(l: Link, step: Step)
    requires Inv(l)
    ensures Inv(Next(l, step))
  {
    match step
    case SendPing => SendKeeps(l, Command(PING, ToInt8(l.base.sequence)));
    case SendOther(c) => if c.command != PING { SendKeeps(l, c); }
    case CommandArrives(length) => if l.down != [] { HearCommandKeeps(l, length); }
    case ResponseArrives => if l.up != [] { HearResponseKeeps(l); }
    case LoseDown(i) => ChainLose(l.down, i, l.lastRound, l.accepted + 1);
    case LoseUp(i) => ChainLose(l.up, i, l.accepted, l.lastRound);
    case DuplicateDown(i) => ChainDuplicate(l.down, i, l.lastRound, l.accepted + 1);
    case DuplicateUp(i) => ChainDuplicate(l.up, i, l.accepted, l.lastRound);
    case Timeout =>
    case SetPower(_) =>
  }

  lemma {:induction false} AlwaysInv(steps: seq<Step>)
    ensures Inv(Run(NEW_LINK, steps))
  {
    if steps != [] {
      AlwaysInv(steps[..|steps| - 1]);
      NextKeeps(Run(NEW_LINK, steps[..|steps| - 1]), steps[|steps| - 1]);
    }
  }

  // ---------------------------------------------------------------------------
  // What the invariant gives
  // ---------------------------------------------------------------------------

  /** Comparing 8-bit sequences decides exactly as comparing rounds that never wrap would. */
  lemma DecisionsUnambiguous(steps: seq<Step>)
    ensures var l := Run(NEW_LINK, steps);
            && (l.down != [] && l.down[0].IsPing() ==>
                  (l.down[0].Seq() == l.remote.sequence <==> l.down[0].round == l.lastRound))
            && (l.up != [] && l.up[0].IsPing() ==>
                  (Matches(l.base, Response(0, PING, l.up[0].argument, [])) <==>
                   l.base.waiting && l.base.command.command == PING && l.up[0].round == l.accepted + 1))
  {
    AlwaysInv(steps);
    var l := Run(NEW_LINK, steps);
    if l.down != [] && l.down[0].IsPing() {
      RepeatDecided(l);
    }
    if l.up != [] && l.up[0].IsPing() {
      AnswerDecided(l);
    }
  }

  /** The remote has taken as new exactly the pings the base has accepted, or one more. */
  lemma HeardOrOneAhead(steps: seq<Step>)
    ensures var l := Run(NEW_LINK, steps);
            && (l.heard == l.accepted || l.heard == l.accepted + 1)
            && l.base.sequence == l.accepted % 0x100
            && (l.heard == l.accepted <==> l.remote.sequence != l.base.sequence)
  {
    AlwaysInv(steps);
    OneAhead(Run(NEW_LINK, steps));
  }

  lemma OneAhead(l: Link)
    requires Inv(l)
    ensures l.heard == l.accepted || l.heard == l.accepted + 1
    ensures l.base.sequence == l.accepted % 0x100
    ensures l.heard == l.accepted <==> l.remote.sequence != l.base.sequence
  {
    SeqsDiffer(l.lastRound, l.accepted);
  }

  /** A ping about to be heard was already answered to the base exactly when the base has moved past its sequence. */
  lemma AlreadyAnsweredIff(steps: seq<Step>)
    ensures var l := Run(NEW_LINK, steps);
            l.down != [] && l.down[0].IsPing() ==>
              (l.down[0].round <= l.accepted <==> l.down[0].Seq() != l.base.sequence)
  {
    AlwaysInv(steps);
    var l := Run(NEW_LINK, steps);
    if l.down != [] && l.down[0].IsPing() {
      OlderIff(l, l.down[0]);
    }
  }

  lemma OlderIff(l: Link, f: Frame)
    requires Inv(l) && f in l.down && f.IsPing()
    ensures f.round <= l.accepted <==> f.Seq() != l.base.sequence
  {
    SeqsDiffer(f.round, l.accepted);
  }

  function PingSeqs(frames: seq<Frame>): seq<uint8> {
    if frames == [] then []
    else
      var n := |frames| - 1;
      PingSeqs(frames[..n]) + if frames[n].IsPing() then [frames[n].Seq()] else []
  }

  function PingRounds(frames: seq<Frame>): seq<nat> {
    if frames == [] then []
    else
      var n := |frames| - 1;
      PingRounds(frames[..n]) + if frames[n].IsPing() then [frames[n].round] else []
  }

  ghost predicate Sorted(rounds: seq<nat>, lo: nat, hi: nat) {
    && (forall i :: 0 <= i < |rounds| ==> lo <= rounds[i] <= hi)
    && (forall i, j :: 0 <= i < j < |rounds| ==> rounds[i] <= rounds[j])
  }

  ghost predicate Carry(seqs: seq<uint8>, rounds: seq<nat>) {
    |seqs| == |rounds| && forall i :: 0 <= i < |seqs| ==> seqs[i] == SeqOf(rounds[i])
  }

  lemma {:induction false} ChainSorted(frames: seq<Frame>, lo: nat, hi: nat)
    requires Chain(frames, lo, hi)
    ensures Sorted(PingRounds(frames), lo, hi) && Carry(PingSeqs(frames), PingRounds(frames))
  {
    if frames != [] {
      var n := |frames| - 1;
      if frames[n].IsPing() {
        ChainSorted(frames[..n], lo, frames[n].round);
        SortedAppend(PingRounds(frames[..n]), lo, frames[n].round, hi);
      } else {
        ChainSorted(frames[..n], lo, hi);
      }
    }
  }

  lemma SortedAppend(rounds: seq<nat>, lo: nat, last: nat, hi: nat)
    requires Sorted(rounds, lo, last) && lo <= last <= hi
    ensures Sorted(rounds + [last], lo, hi)
  {
  }

  lemma {:induction false} TwoRounds(rounds: seq<nat>, a: nat) returns (k: nat)
    requires Sorted(rounds, a, a + 1)
    ensures k <= |rounds| && forall i :: 0 <= i < |rounds| ==> rounds[i] == if i < k then a else a + 1
  {
    if rounds == [] {
      return 0;
    }
    var n := |rounds| - 1;
    k := TwoRounds(rounds[..n], a);
    if rounds[n] == a {
      assert forall i :: 0 <= i < n ==> rounds[..n][i] == rounds[i] <= a;
      k := n + 1;
    }
  }

  /** Every ping sequence there is: on its way to the base, at the remote, on its way there, at the base. */
  function Line(l: Link): seq<uint8> {
    PingSeqs(l.up) + [l.remote.sequence] + PingSeqs(l.down) + [l.base.sequence]
  }

  function Rounds(l: Link): seq<nat> {
    PingRounds(l.up) + [l.lastRound] + PingRounds(l.down) + [l.accepted + 1]
  }

  lemma SortedConcat(a: seq<nat>, b: seq<nat>, lo: nat, mid: nat, hi: nat)
    requires lo <= mid <= hi && Sorted(a, lo, mid) && Sorted(b, mid, hi)
    ensures Sorted(a + b, lo, hi)
  {
  }

  lemma LineSorted(l: Link)
    requires Inv(l)
    ensures Sorted(Rounds(l), l.accepted, l.accepted + 1)
  {
    ChainSorted(l.up, l.accepted, l.lastRound);
    ChainSorted(l.down, l.lastRound, l.accepted + 1);
    var ups, downs := PingRounds(l.up), PingRounds(l.down);
    SortedConcat(ups, [l.lastRound], l.accepted, l.lastRound, l.lastRound);
    SortedConcat(ups + [l.lastRound], downs, l.accepted, l.lastRound, l.accepted + 1);
    SortedConcat(ups + [l.lastRound] + downs, [l.accepted + 1], l.accepted, l.accepted + 1, l.accepted + 1);
  }

  lemma LineCarries(l: Link)
    requires Inv(l)
    ensures Carry(Line(l), Rounds(l))
  {
    ChainSorted(l.up, l.accepted, l.lastRound);
    ChainSorted(l.down, l.lastRound, l.accepted + 1);
    var ups, downs, here, there := PingRounds(l.up), PingRounds(l.down), [l.remote.sequence], [l.base.sequence];
    CarryConcat(PingSeqs(l.up), here, ups, [l.lastRound]);
    CarryConcat(PingSeqs(l.up) + here, PingSeqs(l.down), ups + [l.lastRound], downs);
    CarryConcat(PingSeqs(l.up) + here + PingSeqs(l.down), there, ups + [l.lastRound] + downs, [l.accepted + 1]);
  }

  lemma CarryConcat(a: seq<uint8>, b: seq<uint8>, rounds: seq<nat>, more: seq<nat>)
    requires Carry(a, rounds) && Carry(b, more)
    ensures Carry(a + b, rounds + more)
  {
  }

  /** Read in that order the sequences are a block of s - 1 followed by a block of s, never empty. */
  lemma PingLineIsBlock(steps: seq<Step>) returns (k: nat)
    ensures IsBlock(Line(Run(NEW_LINK, steps)), Run(NEW_LINK, steps).base.sequence, k)
  {
    AlwaysInv(steps);
    k := LineIsBlock(Run(NEW_LINK, steps));
  }

  ghost predicate IsBlock(line: seq<uint8>, s: uint8, k: nat) {
    k < |line| && forall i :: 0 <= i < |line| ==> line[i] == if i < k then (s + 0xFF) % 0x100 else s
  }

  lemma LineIsBlock(l: Link) returns (k: nat)
    requires Inv(l)
    ensures IsBlock(Line(l), l.base.sequence, k)
  {
    LineSorted(l);
    LineCarries(l);
    k := TwoRounds(Rounds(l), l.accepted);
    CarriedBlock(Line(l), Rounds(l), l.accepted, k);
  }

  lemma CarriedBlock(line: seq<uint8>, rounds: seq<nat>, a: nat, k: nat)
    requires Carry(line, rounds) && rounds != [] && rounds[|rounds| - 1] == a + 1
    requires k <= |rounds| && forall i :: 0 <= i < |rounds| ==> rounds[i] == if i < k then a else a + 1
    ensures IsBlock(line, SeqOf(a + 1), k)
  {
    assert SeqOf(a) == (SeqOf(a + 1) + 0xFF) % 0x100;
  }

  // ---------------------------------------------------------------------------
  // What it does not give
  // ---------------------------------------------------------------------------

  lemma RunMore(steps: seq<Step>, step: Step)
    ensures Run(NEW_LINK, steps + [step]) == Next(Run(NEW_LINK, steps), step)
  {
    assert (steps + [step])[..|steps|] == steps;
  }

  /** A ping sent again after a timeout raises the power although its first answer was accepted. */
  lemma RepeatAfterAcceptance() returns (steps: seq<Step>)
    ensures var l := Run(NEW_LINK, steps);
            && l.accepted == 1 && l.down != [] && l.down[0].IsPing() && l.down[0].round == 1
            && Next(l, CommandArrives(0)).remote.power == l.remote.power + 1
  {
    var s1 := [] + [SendPing];
    var s2 := s1 + [Timeout];
    var s3 := s2 + [SendPing];
    var s4 := s3 + [CommandArrives(0)];
    steps := s4 + [ResponseArrives];
    RunMore([], SendPing);
    RunMore(s1, Timeout);
    RunMore(s2, SendPing);
    RunMore(s3, CommandArrives(0));
    RunMore(s4, ResponseArrives);
  }

  /** A late answer to one MOVE completes the next one with the same argument, which was lost. */
  lemma LateAnswerCompletesLostMove(argument: int8) returns (steps: seq<Step>)
    ensures var l := Run(NEW_LINK, steps);
            && l.base == Base(true, Command(MOVE, argument), 0) && l.down == [] && l.handled == 1
            && l.completed == 0 && l.up != [] && l.up[0].number == 1 && l.sent == 2
            && Next(l, ResponseArrives).completed == 1 && !Next(l, ResponseArrives).base.waiting
  {
    var move := SendOther(Command(MOVE, argument));
    var s1 := [] + [move];
    var s2 := s1 + [CommandArrives(0)];
    var s3 := s2 + [Timeout];
    var s4 := s3 + [move];
    steps := s4 + [LoseDown(0)];
    RunMore([], move);
    RunMore(s1, CommandArrives(0));
    RunMore(s2, Timeout);
    RunMore(s3, move);
    RunMore(s4, LoseDown(0));
  }
}

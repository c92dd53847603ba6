/**
 * The full V1 base and one full V1 remote over two channels of packets: every run of theirs is, as far as the
 * ping exchange goes, a run of the reduced exchange, so what holds of that one's runs holds of theirs.
 */
module Exchange {
  import opened Bits
  import opened Packet
  import opened Counters
  import B = BaseStation
  import Contexts = RemoteContext
  import Remotes = RemoteStation
  import opened StopAndWait

  type RemoteId = x: int | 1 <= x <= 16 witness 1

  /** The channels to the remote and back. */
  datatype System = System(
    base: B.Station, remote: Remotes.Remote, toRemote: seq<PacketBytes>, toBase: seq<PacketBytes>)

  /**
   * BaseDoes is anything but an arrival from this remote, RemoteDoes anything but an arrival from the base; a
   * packet another station or noise puts on the air counts among them.
   */
  datatype Action =
    | BaseDoes(baseEvent: B.Event)
    | RemoteDoes(remoteEvent: Remotes.Event)
    | BaseHears(now: Time)
    | RemoteHears(now: Time, report: Contexts.TxReport)
    | DropToRemote(i: nat) | DropToBase(i: nat)
    | RepeatToRemote(i: nat) | RepeatToBase(i: nat)

  function ContextOf(s: System, id: RemoteId): Contexts.Context
    requires B.WellFormed(s.base)
  {
    s.base.contexts[id - 1]
  }

  predicate FromRemote(p: PacketBytes, id: RemoteId) {
    DecodedResponse(p).Some? && DecodedResponse(p).value.sourceId == id
  }

  /** A PING is only ever sent by send_ping, with the context's own sequence. */
  predicate Lawful(s: System, id: RemoteId, a: Action)
    requires B.WellFormed(s.base)
  {
    match a
    case BaseDoes(SendTo(to, c, _, _, _)) =>
      to == id && c.command == PING ==> c.argument == ToInt8(ContextOf(s, id).pingSeq)
    case BaseDoes(Arrive(arrival)) => !FromRemote(arrival.packet, id)
    case RemoteDoes(Hear(packet, _, _)) => DecodedCommand(packet).None?
    case _ => true
  }

  /** The packet a send to this remote puts on the air. */
  function PutOnAir(s: System, id: RemoteId, e: B.Event): seq<PacketBytes>
    requires B.WellFormed(s.base)
  {
    if e.SendTo? && e.id == id && !ContextOf(s, id).pending.waiting then [CommandPacket(e.command)] else []
  }

  function Perform(s: System, id: RemoteId, a: Action): (t: System)
    requires B.WellFormed(s.base)
    ensures B.WellFormed(t.base)
  {
    if !Lawful(s, id, a) then s
    else
      match a
      case BaseDoes(e) => s.(base := B.ApplyEvent(s.base, e), toRemote := s.toRemote + PutOnAir(s, id, e))
      case RemoteDoes(e) => s.(remote := Remotes.ApplyEvent(s.remote, id, e))
      case BaseHears(now) =>
        if s.toBase == [] then s
        else s.(base := B.ApplyEvent(s.base, B.Arrive(B.Arrival(s.toBase[0], now))), toBase := s.toBase[1..])
      case RemoteHears(now, report) =>
        if s.toRemote == [] then s
        else
          s.(remote := Remotes.ApplyEvent(s.remote, id, Remotes.Hear(s.toRemote[0], now, report)),
             toRemote := s.toRemote[1..],
             toBase := s.toBase + Remotes.ReplyTo(s.remote, id, s.toRemote[0], now))
      case DropToRemote(i) => s.(toRemote := Lose(s.toRemote, i))
      case DropToBase(i) => s.(toBase := Lose(s.toBase, i))
      case RepeatToRemote(i) => s.(toRemote := Duplicate(s.toRemote, i))
      case RepeatToBase(i) => s.(toBase := Duplicate(s.toBase, i))
  }

  function Start(): (s: System)
    ensures B.WellFormed(s.base)
  {
    System(B.NewStation(), Remotes.NEW_REMOTE, [], [])
  }

  function Runs(id: RemoteId, actions: seq<Action>): (s: System)
    ensures B.WellFormed(s.base)
  {
    if actions == [] then Start() else Perform(Runs(id, actions[..|actions| - 1]), id, actions[|actions| - 1])
  }

  // ---------------------------------------------------------------------------
  // The reduced exchange follows
  // ---------------------------------------------------------------------------

  /** The step of the reduced exchange an action amounts to, if any. */
  function StepFor(s: System, id: RemoteId, a: Action): seq<Step>
    requires B.WellFormed(s.base)
  {
    if !Lawful(s, id, a) then []
    else
      match a
      case BaseDoes(SendTo(to, c, _, _, _)) =>
        if to != id then [] else if c.command == PING then [SendPing] else [SendOther(c)]
      case BaseDoes(ExpireAll(clock)) =>
        if |clock| == B.REMOTES && Contexts.Expired(ContextOf(s, id), clock[id - 1]) then [Timeout] else []
      case BaseDoes(_) => []
      case RemoteDoes(SetPower(level)) => [StopAndWait.SetPower(level)]
      case RemoteDoes(_) => []
      case BaseHears(_) => [ResponseArrives]
      case RemoteHears(_, _) => [CommandArrives(if s.toRemote == [] then 0 else DataLength(s.toRemote[0]))]
      case DropToRemote(i) => [LoseDown(i)]
      case DropToBase(i) => [LoseUp(i)]
      case RepeatToRemote(i) => [DuplicateDown(i)]
      case RepeatToBase(i) => [DuplicateUp(i)]
  }

  function DataLength(p: PacketBytes): int8 {
    if p[0] == GETSTAT then Contexts.GETSTAT_SIZE else 2
  }

  function StepsFor(id: RemoteId, actions: seq<Action>): seq<Step> {
    if actions == [] then []
    else
      StepsFor(id, actions[..|actions| - 1]) +
      StepFor(Runs(id, actions[..|actions| - 1]), id, actions[|actions| - 1])
  }

  predicate Carries(p: PacketBytes, f: Frame) {
    p == CommandPacket(Command(f.command, f.argument))
  }

  predicate Reports(p: PacketBytes, f: Frame, id: RemoteId) {
    && FromRemote(p, id)
    && DecodedResponse(p).value.command == f.command && DecodedResponse(p).value.argument == f.argument
  }

  ghost predicate AllCarry(ps: seq<PacketBytes>, fs: seq<Frame>) {
    |ps| == |fs| && forall i :: 0 <= i < |ps| ==> Carries(ps[i], fs[i])
  }

  ghost predicate AllReport(ps: seq<PacketBytes>, fs: seq<Frame>, id: RemoteId) {
    |ps| == |fs| && forall i :: 0 <= i < |ps| ==> Reports(ps[i], fs[i], id)
  }

  ghost predicate Simulates(s: System, l: Link, id: RemoteId)
    requires B.WellFormed(s.base)
  {
    && BaseOf(ContextOf(s, id)) == l.base && RemoteOf(s.remote) == l.remote
    && AllCarry(s.toRemote, l.down) && AllReport(s.toBase, l.up, id)
  }

  function NextAll(l: Link, steps: seq<Step>): Link
    requires |steps| <= 1
  {
    if steps == [] then l else Next(l, steps[0])
  }

  /** An event of the base reaches the context as one step of it, or not at all. */
  lemma BaseEvent(s: System, id: RemoteId, e: B.Event)
    requires B.WellFormed(s.base) && Lawful(s, id, BaseDoes(e))
    ensures var c := ContextOf(s, id);
            B.ApplyEvent(s.base, e).contexts[id - 1] ==
            match e
            case SendTo(to, command, started, dated, report) =>
              if to == id then Contexts.Apply(c, Contexts.Send(command, started, dated, report)) else c
            case Arrive(_) => c
            case ExpireAll(clock) =>
              if |clock| == B.REMOTES then Contexts.Apply(c, Contexts.Expire(clock[id - 1])) else c
            case ResetAll => Contexts.Apply(c, Contexts.ResetStatistics)
  {
    B.IsolatedStep(s.base, e, id);
  }

  lemma SendSimulated(s: System, l: Link, id: RemoteId, e: B.Event)
    requires B.WellFormed(s.base) && Simulates(s, l, id) && Lawful(s, id, BaseDoes(e)) && e.SendTo? && e.id == id
    ensures var step := if e.command.command == PING then SendPing else SendOther(e.command);
            Simulates(Perform(s, id, BaseDoes(e)), Next(l, step), id)
  {
    var c := e.command;
    BaseEvent(s, id, e);
    BaseRefines(ContextOf(s, id), Contexts.Send(c, e.started, e.dated, e.report));
    assert Next(l, if c.command == PING then SendPing else SendOther(c)) == Send(l, c);
    assert l.base.waiting ==> s.toRemote + PutOnAir(s, id, e) == s.toRemote;
  }

  lemma BaseSimulated(s: System, l: Link, id: RemoteId, e: B.Event)
    requires B.WellFormed(s.base) && Simulates(s, l, id) && Lawful(s, id, BaseDoes(e)) && !(e.SendTo? && e.id == id)
    ensures Simulates(Perform(s, id, BaseDoes(e)), NextAll(l, StepFor(s, id, BaseDoes(e))), id)
  {
    BaseEvent(s, id, e);
    assert s.toRemote + PutOnAir(s, id, e) == s.toRemote;
    match e
    case ExpireAll(clock) =>
      if |clock| == B.REMOTES {
        BaseRefines(ContextOf(s, id), Contexts.Expire(clock[id - 1]));
      }
    case ResetAll => BaseRefines(ContextOf(s, id), Contexts.ResetStatistics);
    case _ =>
  }

  lemma RemoteSimulated(s: System, l: Link, id: RemoteId, e: Remotes.Event)
    requires B.WellFormed(s.base) && Simulates(s, l, id) && Lawful(s, id, RemoteDoes(e))
    ensures Simulates(Perform(s, id, RemoteDoes(e)), NextAll(l, StepFor(s, id, RemoteDoes(e))), id)
  {
  }

  lemma AnswerHeard(s: System, l: Link, id: RemoteId, now: Time)
    requires B.WellFormed(s.base) && Simulates(s, l, id) && s.toBase != []
    ensures BaseOf(ContextOf(Perform(s, id, BaseHears(now)), id)) == HearResponse(l).base
  {
    var p, f := s.toBase[0], l.up[0];
    var e := B.Arrive(B.Arrival(p, now));
    assert Reports(p, f, id);
    var r := DecodedResponse(p).value;
    B.IsolatedStep(s.base, e, id);
    assert B.StepsFor(id, e) == [Contexts.Receive(r, now)];
    BaseRefines(ContextOf(s, id), Contexts.Receive(r, now));
    assert Accept(l.base, r) == Accept(l.base, Response(0, f.command, f.argument, []));
  }

  lemma BaseHearsSimulated(s: System, l: Link, id: RemoteId, now: Time)
    requires B.WellFormed(s.base) && Simulates(s, l, id)
    ensures Simulates(Perform(s, id, BaseHears(now)), Next(l, ResponseArrives), id)
  {
    if s.toBase != [] {
      AnswerHeard(s, l, id, now);
      TailReports(s.toBase, l.up, id);
    }
  }

  lemma CommandHeard(r: Remotes.Remote, id: RemoteId, p: PacketBytes, f: Frame, now: Time, report: Contexts.TxReport)
    requires Carries(p, f)
    ensures var c, replies := Command(f.command, f.argument), Remotes.ReplyTo(r, id, p, now);
            && RemoteOf(Remotes.ApplyEvent(r, id, Remotes.Hear(p, now, report))) == StopAndWait.Hear(RemoteOf(r), c)
            && |replies| == (if Known(c) then 1 else 0)
            && (Known(c) ==> Reports(replies[0], AnswerTo(f, DataLength(p)), id))
  {
    var c := Command(f.command, f.argument);
    CommandRoundTrip(c);
    if c.command < 0xF0 {
      RemoteRefines(r, id, c, now, report);
      var acted := Remotes.Act(Remotes.Count(r, c), c, now);
      if Known(c) {
        FirstByte(c);
        Remotes.ReplyDecodes(acted, id, c, now);
      }
    }
  }

  lemma FirstByte(c: Command)
    ensures CommandPacket(c)[0] == c.command
  {
  }

  lemma RemoteHearsSimulated(s: System, l: Link, id: RemoteId, now: Time, report: Contexts.TxReport)
    requires B.WellFormed(s.base) && Simulates(s, l, id)
    ensures var a := RemoteHears(now, report);
            Simulates(Perform(s, id, a), NextAll(l, StepFor(s, id, a)), id)
  {
    if s.toRemote != [] {
      var p, f := s.toRemote[0], l.down[0];
      assert Carries(p, f);
      CommandHeard(s.remote, id, p, f, now, report);
      TailCarries(s.toRemote, l.down);
      ReportAnswer(s.toBase, l.up, id, Remotes.ReplyTo(s.remote, id, p, now),
                   Known(Command(f.command, f.argument)), AnswerTo(f, DataLength(p)));
    }
  }

  lemma ReportAnswer(
    ps: seq<PacketBytes>, fs: seq<Frame>, id: RemoteId, qs: seq<PacketBytes>, known: bool, answer: Frame)
    requires AllReport(ps, fs, id) && |qs| == (if known then 1 else 0) && (known ==> Reports(qs[0], answer, id))
    ensures AllReport(ps + qs, if known then fs + [answer] else fs, id)
  {
    ReportMore(ps, fs, id, qs, if known then [answer] else []);
    assert fs + [] == fs;
  }

  lemma TailCarries(ps: seq<PacketBytes>, fs: seq<Frame>)
    requires AllCarry(ps, fs) && ps != []
    ensures AllCarry(ps[1..], fs[1..])
  {
    assert forall i :: 0 <= i < |ps| - 1 ==> ps[1..][i] == ps[i + 1] && fs[1..][i] == fs[i + 1];
  }

  lemma TailReports(ps: seq<PacketBytes>, fs: seq<Frame>, id: RemoteId)
    requires AllReport(ps, fs, id) && ps != []
    ensures AllReport(ps[1..], fs[1..], id)
  {
    assert forall i :: 0 <= i < |ps| - 1 ==> ps[1..][i] == ps[i + 1] && fs[1..][i] == fs[i + 1];
  }

  lemma ReportMore(ps: seq<PacketBytes>, fs: seq<Frame>, id: RemoteId, qs: seq<PacketBytes>, gs: seq<Frame>)
    requires AllReport(ps, fs, id) && AllReport(qs, gs, id)
    ensures AllReport(ps + qs, fs + gs, id)
  {
  }

  lemma DroppedCarries(ps: seq<PacketBytes>, fs: seq<Frame>, i: nat)
    requires AllCarry(ps, fs)
    ensures AllCarry(Lose(ps, i), Lose(fs, i))
  {
    var qs, gs := Lose(ps, i), Lose(fs, i);
    forall k | 0 <= k < |qs| ensures Carries(qs[k], gs[k]) {
      var j := if i < |ps| && k >= i then k + 1 else k;
      assert qs[k] == ps[j] && gs[k] == fs[j];
    }
  }

  lemma DroppedReports(ps: seq<PacketBytes>, fs: seq<Frame>, id: RemoteId, i: nat)
    requires AllReport(ps, fs, id)
    ensures AllReport(Lose(ps, i), Lose(fs, i), id)
  {
    var qs, gs := Lose(ps, i), Lose(fs, i);
    forall k | 0 <= k < |qs| ensures Reports(qs[k], gs[k], id) {
      var j := if i < |ps| && k >= i then k + 1 else k;
      assert qs[k] == ps[j] && gs[k] == fs[j];
    }
  }

  lemma DoubledCarries(ps: seq<PacketBytes>, fs: seq<Frame>, i: nat)
    requires AllCarry(ps, fs)
    ensures AllCarry(Duplicate(ps, i), Duplicate(fs, i))
  {
    var qs, gs := Duplicate(ps, i), Duplicate(fs, i);
    forall k | 0 <= k < |qs| ensures Carries(qs[k], gs[k]) {
      var j := if i < |ps| && k > i then k - 1 else k;
      assert qs[k] == ps[j] && gs[k] == fs[j];
    }
  }

  lemma DoubledReports(ps: seq<PacketBytes>, fs: seq<Frame>, id: RemoteId, i: nat)
    requires AllReport(ps, fs, id)
    ensures AllReport(Duplicate(ps, i), Duplicate(fs, i), id)
  {
    var qs, gs := Duplicate(ps, i), Duplicate(fs, i);
    forall k | 0 <= k < |qs| ensures Reports(qs[k], gs[k], id) {
      var j := if i < |ps| && k > i then k - 1 else k;
      assert qs[k] == ps[j] && gs[k] == fs[j];
    }
  }

  lemma DropToRemoteSimulated(s: System, l: Link, id: RemoteId, i: nat)
    requires B.WellFormed(s.base) && Simulates(s, l, id)
    ensures Simulates(Perform(s, id, DropToRemote(i)), Next(l, LoseDown(i)), id)
  {
    DroppedCarries(s.toRemote, l.down, i);
  }

  lemma DropToBaseSimulated(s: System, l: Link, id: RemoteId, i: nat)
    requires B.WellFormed(s.base) && Simulates(s, l, id)
    ensures Simulates(Perform(s, id, DropToBase(i)), Next(l, LoseUp(i)), id)
  {
    DroppedReports(s.toBase, l.up, id, i);
  }

  lemma RepeatToRemoteSimulated(s: System, l: Link, id: RemoteId, i: nat)
    requires B.WellFormed(s.base) && Simulates(s, l, id)
    ensures Simulates(Perform(s, id, RepeatToRemote(i)), Next(l, DuplicateDown(i)), id)
  {
    DoubledCarries(s.toRemote, l.down, i);
  }

  lemma RepeatToBaseSimulated(s: System, l: Link, id: RemoteId, i: nat)
    requires B.WellFormed(s.base) && Simulates(s, l, id)
    ensures Simulates(Perform(s, id, RepeatToBase(i)), Next(l, DuplicateUp(i)), id)
  {
    DoubledReports(s.toBase, l.up, id, i);
  }

  lemma Simulated(s: System, l: Link, id: RemoteId, a: Action)
    requires B.WellFormed(s.base) && Simulates(s, l, id)
    ensures |StepFor(s, id, a)| <= 1
    ensures Simulates(Perform(s, id, a), NextAll(l, StepFor(s, id, a)), id)
  {
    if Lawful(s, id, a) {
      match a
      case BaseDoes(e) =>
        if e.SendTo? && e.id == id { SendSimulated(s, l, id, e); } else { BaseSimulated(s, l, id, e); }
      case RemoteDoes(e) => RemoteSimulated(s, l, id, e);
      case BaseHears(now) => BaseHearsSimulated(s, l, id, now);
      case RemoteHears(now, report) => RemoteHearsSimulated(s, l, id, now, report);
      case DropToRemote(i) => DropToRemoteSimulated(s, l, id, i);
      case DropToBase(i) => DropToBaseSimulated(s, l, id, i);
      case RepeatToRemote(i) => RepeatToRemoteSimulated(s, l, id, i);
      case RepeatToBase(i) => RepeatToBaseSimulated(s, l, id, i);
    }
  }

  /** On every run of the full stations. */
  lemma {:induction false} AlwaysSimulated(id: RemoteId, actions: seq<Action>)
    ensures Simulates(Runs(id, actions), Run(NEW_LINK, StepsFor(id, actions)), id)
  {
    if actions != [] {
      var n := |actions| - 1;
      AlwaysSimulated(id, actions[..n]);
      var s, steps := Runs(id, actions[..n]), StepsFor(id, actions[..n]);
      Simulated(s, Run(NEW_LINK, steps), id, actions[n]);
      var more := StepFor(s, id, actions[n]);
      if more == [] {
        assert steps + more == steps;
      } else {
        assert more == [more[0]];
        RunMore(steps, more[0]);
      }
    } else {
      assert ContextOf(Start(), id) == Contexts.NEW_CONTEXT;
    }
  }

  // ---------------------------------------------------------------------------
  // What that says of the full stations
  // ---------------------------------------------------------------------------

  /** The sequences of the ping commands among the packets, and of the ping answers. */
  function CommandSeqs(ps: seq<PacketBytes>): seq<uint8> {
    if ps == [] then []
    else
      var n := |ps| - 1;
      CommandSeqs(ps[..n]) +
      match DecodedCommand(ps[n])
      case Some(c) => if c.command == PING then [ToUint8(c.argument)] else []
      case None => []
  }

  function AnswerSeqs(ps: seq<PacketBytes>): seq<uint8> {
    if ps == [] then []
    else
      var n := |ps| - 1;
      AnswerSeqs(ps[..n]) +
      match DecodedResponse(ps[n])
      case Some(r) => if r.command == PING then [ToUint8(r.argument)] else []
      case None => []
  }

  lemma {:induction false} CommandSeqsCarried(ps: seq<PacketBytes>, fs: seq<Frame>)
    requires AllCarry(ps, fs)
    ensures CommandSeqs(ps) == PingSeqs(fs)
  {
    if ps != [] {
      var n := |ps| - 1;
      CommandSeqsCarried(ps[..n], fs[..n]);
      assert Carries(ps[n], fs[n]);
      CommandRoundTrip(Command(fs[n].command, fs[n].argument));
    }
  }

  lemma {:induction false} AnswerSeqsReported(ps: seq<PacketBytes>, fs: seq<Frame>, id: RemoteId)
    requires AllReport(ps, fs, id)
    ensures AnswerSeqs(ps) == PingSeqs(fs)
  {
    if ps != [] {
      var n := |ps| - 1;
      AnswerSeqsReported(ps[..n], fs[..n], id);
      assert Reports(ps[n], fs[n], id);
    }
  }

  /** Decoded from the packets on their way to the base, at the remote, on their way there, at the base. */
  function PacketLine(s: System, id: RemoteId): seq<uint8>
    requires B.WellFormed(s.base)
  {
    AnswerSeqs(s.toBase) + [s.remote.context.pingSeq] + CommandSeqs(s.toRemote) + [ContextOf(s, id).pingSeq]
  }

  /** On every run of the full stations the ping sequences are a block of s - 1 followed by a block of s. */
  lemma PacketLineIsBlock(id: RemoteId, actions: seq<Action>) returns (k: nat)
    ensures IsBlock(PacketLine(Runs(id, actions), id), ContextOf(Runs(id, actions), id).pingSeq, k)
  {
    var s, l := Runs(id, actions), Run(NEW_LINK, StepsFor(id, actions));
    AlwaysSimulated(id, actions);
    CommandSeqsCarried(s.toRemote, l.down);
    AnswerSeqsReported(s.toBase, l.up, id);
    k := PingLineIsBlock(StepsFor(id, actions));
  }
}

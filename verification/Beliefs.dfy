/** What the full V1 base believes of the remote's movement after a completion that is beyond doubt. */
module Beliefs {
  import opened Bits
  import opened Wrappers
  import opened Packet
  import opened Counters
  import Contexts = RemoteContext
  import Remotes = RemoteStation
  import B = BaseStation
  import opened StopAndWait
  import opened Completions
  import opened Exchange

  // ---------------------------------------------------------------------------
  // Answers in flight are to commands heard, commands in flight are not older
  // ---------------------------------------------------------------------------

  ghost predicate AtMost(frames: seq<Frame>, number: nat) {
    forall i :: 0 <= i < |frames| ==> frames[i].number <= number
  }

  ghost predicate AtLeast(frames: seq<Frame>, number: nat) {
    forall i :: 0 <= i < |frames| ==> number <= frames[i].number
  }

  ghost predicate Placed(l: Link) {
    AtMost(l.up, l.lastNumber) && AtLeast(l.down, l.lastNumber) && l.lastNumber <= l.sent
  }

  lemma MarkAt(l: Link, i: nat)
    requires i < |l.up| + |l.down|
    ensures Flight(l)[i] == if i < |l.up| then MarkOf(l.up[i]) else MarkOf(l.down[i - |l.up|])
  {
  }

  lemma HeadOfDown(l: Link, v: View, dup: bool)
    requires Tracks(l, v, dup) && l.down != []
    ensures AtLeast(l.down, l.down[0].number) && l.down[0].number <= l.sent
  {
    MarkAt(l, |l.up|);
    forall i | 0 <= i < |l.down| ensures l.down[0].number <= l.down[i].number {
      MarkAt(l, |l.up| + i);
      if i > 0 {
        assert Older(Flight(l)[|l.up|], Flight(l)[|l.up| + i], dup);
      }
    }
  }

  lemma LoseWithin(frames: seq<Frame>, i: nat)
    ensures forall f :: f in Lose(frames, i) ==> f in frames
    ensures forall f :: f in Duplicate(frames, i) ==> f in frames
  {
  }

  lemma SubsetPlaced(some: seq<Frame>, all: seq<Frame>, number: nat)
    requires forall f :: f in some ==> f in all
    ensures AtMost(all, number) ==> AtMost(some, number)
    ensures AtLeast(all, number) ==> AtLeast(some, number)
  {
    forall i | 0 <= i < |some| ensures exists k :: 0 <= k < |all| && all[k] == some[i] {
      assert some[i] in all;
    }
  }

  lemma CommandPlaced(l: Link, v: View, length: int8, dup: bool)
    requires Tracks(l, v, dup) && Placed(l) && l.down != []
    ensures Placed(HearCommand(l, length))
  {
    var f := l.down[0];
    HeadOfDown(l, v, dup);
    assert forall f :: f in l.down[1..] ==> f in l.down;
    SubsetPlaced(l.down[1..], l.down, f.number);
    assert AtMost(l.up, f.number);
    assert AtMost(l.up + [AnswerTo(f, length)], f.number);
  }

  lemma NextPlaced(l: Link, v: View, step: Step, dup: bool)
    requires Tracks(l, v, dup) && Placed(l)
    ensures Placed(Next(l, step))
  {
    match step
    case CommandArrives(length) => if l.down != [] { CommandPlaced(l, v, length, dup); }
    case ResponseArrives => if l.up != [] { SubsetPlaced(l.up[1..], l.up, l.lastNumber); }
    case LoseDown(i) => LoseWithin(l.down, i); SubsetPlaced(Lose(l.down, i), l.down, l.lastNumber);
    case LoseUp(i) => LoseWithin(l.up, i); SubsetPlaced(Lose(l.up, i), l.up, l.lastNumber);
    case DuplicateDown(i) => LoseWithin(l.down, i); SubsetPlaced(Duplicate(l.down, i), l.down, l.lastNumber);
    case DuplicateUp(i) => LoseWithin(l.up, i); SubsetPlaced(Duplicate(l.up, i), l.up, l.lastNumber);
    case _ =>
  }

  lemma {:induction false} AlwaysPlaced(steps: seq<Step>, dup: bool)
    requires Allowed(steps, dup)
    ensures Placed(Run(NEW_LINK, steps))
  {
    if steps != [] {
      var n := |steps| - 1;
      AlwaysPlaced(steps[..n], dup);
      AlwaysTracks(steps[..n], dup);
      NextPlaced(Run(NEW_LINK, steps[..n]), Seen(Events(steps[..n]), dup), steps[n], dup);
    }
  }

  /** A known command and an answer in flight with the same number are the same command and its answer. */
  lemma SameNumberSameKey(l: Link, v: View, i: nat, dup: bool)
    requires Tracks(l, v, dup) && l.down != [] && Known(Command(l.down[0].command, l.down[0].argument))
    requires i < |l.up| && l.up[i].number == l.down[0].number
    ensures MarkOf(l.up[i]) == MarkOf(l.down[0])
  {
    var a, b := MarkOf(l.up[i]), MarkOf(l.down[0]);
    MarkAt(l, i);
    MarkAt(l, |l.up|);
    assert a in v.open && b in v.open;
    HeadOrSame(v.open, a, b);
  }

  lemma HeadOrSame(open: seq<Mark>, a: Mark, b: Mark)
    requires InOrder(open, false) && a in open && b in open && a.number == b.number
    ensures a == b
  {
    var i :| 0 <= i < |open| && open[i] == a;
    var j :| 0 <= j < |open| && open[j] == b;
    assert i < j ==> Older(open[i], open[j], false);
    assert j < i ==> Older(open[j], open[i], false);
  }

  // ---------------------------------------------------------------------------
  // The answers to the command heard last tell how the remote moves
  // ---------------------------------------------------------------------------

  /** What a MOVE, STOP or GETSTAT answer says of the remote's movement. */
  predicate Tells(p: PacketBytes, value: int8) {
    match DecodedResponse(p)
    case None => true
    case Some(r) =>
      if r.command == MOVE then r.argument == value
      else if r.command == STOP then value == 0
      else if r.command == GETSTAT then
        |r.data| == Contexts.GETSTAT_SIZE && Contexts.ReadStatus(r.data).moveValue == value
      else true
  }

  ghost predicate AllTell(ps: seq<PacketBytes>, fs: seq<Frame>, number: nat, value: int8) {
    |ps| == |fs| && forall i :: 0 <= i < |ps| && fs[i].number == number ==> Tells(ps[i], value)
  }

  ghost predicate Truthful(s: System, l: Link) {
    AllTell(s.toBase, l.up, l.lastNumber, s.remote.context.moveValue)
  }

  lemma TellTail(ps: seq<PacketBytes>, fs: seq<Frame>, number: nat, value: int8)
    requires AllTell(ps, fs, number, value) && ps != []
    ensures AllTell(ps[1..], fs[1..], number, value)
  {
    forall i | 0 <= i < |ps| - 1 ensures ps[1..][i] == ps[i + 1] && fs[1..][i] == fs[i + 1] {
    }
  }

  lemma TellLose(ps: seq<PacketBytes>, fs: seq<Frame>, number: nat, value: int8, i: nat)
    requires AllTell(ps, fs, number, value)
    ensures AllTell(Lose(ps, i), Lose(fs, i), number, value)
  {
    var qs, gs := Lose(ps, i), Lose(fs, i);
    forall k | 0 <= k < |qs| && gs[k].number == number ensures Tells(qs[k], value) {
      var j := if i < |ps| && k >= i then k + 1 else k;
      assert qs[k] == ps[j] && gs[k] == fs[j];
    }
  }

  lemma TellDuplicate(ps: seq<PacketBytes>, fs: seq<Frame>, number: nat, value: int8, i: nat)
    requires AllTell(ps, fs, number, value)
    ensures AllTell(Duplicate(ps, i), Duplicate(fs, i), number, value)
  {
    var qs, gs := Duplicate(ps, i), Duplicate(fs, i);
    forall k | 0 <= k < |qs| && gs[k].number == number ensures Tells(qs[k], value) {
      var j := if i < |ps| && k > i then k - 1 else k;
      assert qs[k] == ps[j] && gs[k] == fs[j];
    }
  }

  /** How the remote moves once it has heard a command. */
  function MovesAfter(value: int8, command: uint8, argument: int8): int8 {
    if command == MOVE then argument else if command == STOP then 0 else value
  }

  lemma HearsAndMoves(r: Remotes.Remote, id: RemoteId, p: PacketBytes, f: Frame, now: Time, report: Contexts.TxReport)
    requires Carries(p, f)
    ensures Remotes.ApplyEvent(r, id, Remotes.Hear(p, now, report)).context.moveValue ==
            MovesAfter(r.context.moveValue, f.command, f.argument)
  {
    var c := Command(f.command, f.argument);
    CommandRoundTrip(c);
    if c.command < 0xF0 {
      Remotes.TransmittedKeeps(Remotes.Act(Remotes.Count(r, c), c, now), report);
    }
  }

  lemma RepliesTell(r: Remotes.Remote, id: RemoteId, p: PacketBytes, f: Frame, now: Time)
    requires Carries(p, f)
    ensures var replies := Remotes.ReplyTo(r, id, p, now);
            && |replies| == (if Known(Command(f.command, f.argument)) then 1 else 0)
            && (replies != [] ==> Tells(replies[0], MovesAfter(r.context.moveValue, f.command, f.argument)))
  {
    var c := Command(f.command, f.argument);
    CommandRoundTrip(c);
    if c.command < 0xF0 && Known(c) {
      ReplyTells(Remotes.Act(Remotes.Count(r, c), c, now), id, c, now);
    }
  }

  lemma ReplyTells(r: Remotes.Remote, id: RemoteId, c: Command, now: Time)
    requires Known(c) && r.context.moveValue == MovesAfter(r.context.moveValue, c.command, c.argument)
    ensures var reply := Remotes.Reply(r, id, c, now);
            reply.Some? && |reply.value.data| <= DATA_MAX
            && Tells(Remotes.ReplyPacket(reply.value), r.context.moveValue)
  {
    Remotes.ReplyDecodes(r, id, c, now);
    Contexts.StatusRoundTrip(Remotes.CurrentStatus(r, now));
  }

  /** Answers of the same number as the command now heard still tell the truth after it. */
  lemma OldAnswersTell(s: System, l: Link, v: View, id: RemoteId, dup: bool)
    requires B.WellFormed(s.base) && Simulates(s, l, id) && Tracks(l, v, dup) && Placed(l) && Truthful(s, l)
    requires l.down != []
    ensures var f := l.down[0];
            AllTell(s.toBase, l.up, f.number, MovesAfter(s.remote.context.moveValue, f.command, f.argument))
  {
    var f, value := l.down[0], s.remote.context.moveValue;
    forall i | 0 <= i < |s.toBase| && l.up[i].number == f.number
      ensures Tells(s.toBase[i], MovesAfter(value, f.command, f.argument))
    {
      assert l.up[i].number == l.lastNumber;
      assert Tells(s.toBase[i], value) && Reports(s.toBase[i], l.up[i], id);
      if f.command == MOVE || f.command == STOP {
        SameNumberSameKey(l, v, i, dup);
        assert l.up[i].command == f.command && l.up[i].argument == f.argument;
      }
    }
  }

  lemma AnswerTells(ps: seq<PacketBytes>, fs: seq<Frame>, number: nat, value: int8, replies: seq<PacketBytes>,
                    known: bool, answer: Frame)
    requires AllTell(ps, fs, number, value) && |replies| == (if known then 1 else 0)
    requires replies != [] ==> Tells(replies[0], value)
    ensures AllTell(ps + replies, if known then fs + [answer] else fs, number, value)
  {
  }

  lemma RemoteHearsTells(s: System, l: Link, v: View, id: RemoteId, now: Time, report: Contexts.TxReport, dup: bool)
    requires B.WellFormed(s.base) && Simulates(s, l, id) && Tracks(l, v, dup) && Placed(l) && Truthful(s, l)
    ensures var a := RemoteHears(now, report);
            Truthful(Perform(s, id, a), NextAll(l, StepFor(s, id, a)))
  {
    if s.toRemote != [] {
      var p, f := s.toRemote[0], l.down[0];
      assert Carries(p, f);
      var value := MovesAfter(s.remote.context.moveValue, f.command, f.argument);
      OldAnswersTell(s, l, v, id, dup);
      HearsAndMoves(s.remote, id, p, f, now, report);
      RepliesTell(s.remote, id, p, f, now);
      AnswerTells(s.toBase, l.up, f.number, value, Remotes.ReplyTo(s.remote, id, p, now),
                  Known(Command(f.command, f.argument)), AnswerTo(f, DataLength(p)));
      TruthfulFrom(Perform(s, id, RemoteHears(now, report)), HearCommand(l, DataLength(p)), f.number, value);
    }
  }

  lemma TruthfulFrom(s: System, l: Link, number: nat, value: int8)
    requires l.lastNumber == number && s.remote.context.moveValue == value
    requires AllTell(s.toBase, l.up, number, value)
    ensures Truthful(s, l)
  {
  }

  lemma OthersTell(s: System, l: Link, id: RemoteId, a: Action)
    requires B.WellFormed(s.base) && Truthful(s, l) && Lawful(s, id, a) && (a.BaseDoes? || a.RemoteDoes?)
    ensures |StepFor(s, id, a)| <= 1 && Truthful(Perform(s, id, a), NextAll(l, StepFor(s, id, a)))
  {
  }

  lemma BaseHearsTells(s: System, l: Link, id: RemoteId, now: Time)
    requires B.WellFormed(s.base) && Truthful(s, l)
    ensures Truthful(Perform(s, id, BaseHears(now)), Next(l, ResponseArrives))
  {
    if s.toBase != [] {
      TellTail(s.toBase, l.up, l.lastNumber, s.remote.context.moveValue);
    }
  }

  lemma DropTells(s: System, l: Link, id: RemoteId, i: nat)
    requires B.WellFormed(s.base) && Truthful(s, l)
    ensures Truthful(Perform(s, id, DropToBase(i)), Next(l, LoseUp(i)))
  {
    TellLose(s.toBase, l.up, l.lastNumber, s.remote.context.moveValue, i);
  }

  lemma RepeatTells(s: System, l: Link, id: RemoteId, i: nat)
    requires B.WellFormed(s.base) && Truthful(s, l)
    ensures Truthful(Perform(s, id, RepeatToBase(i)), Next(l, DuplicateUp(i)))
  {
    TellDuplicate(s.toBase, l.up, l.lastNumber, s.remote.context.moveValue, i);
  }

  lemma DownTells(s: System, l: Link, id: RemoteId, i: nat)
    requires B.WellFormed(s.base) && Truthful(s, l)
    ensures Truthful(Perform(s, id, DropToRemote(i)), Next(l, LoseDown(i)))
    ensures Truthful(Perform(s, id, RepeatToRemote(i)), Next(l, DuplicateDown(i)))
  {
  }

  lemma StepTells(s: System, l: Link, v: View, id: RemoteId, a: Action, dup: bool)
    requires B.WellFormed(s.base) && Simulates(s, l, id) && Tracks(l, v, dup) && Placed(l) && Truthful(s, l)
    ensures |StepFor(s, id, a)| <= 1 && Truthful(Perform(s, id, a), NextAll(l, StepFor(s, id, a)))
  {
    if Lawful(s, id, a) {
      match a
      case BaseDoes(_) => OthersTell(s, l, id, a);
      case RemoteDoes(_) => OthersTell(s, l, id, a);
      case BaseHears(now) => BaseHearsTells(s, l, id, now);
      case RemoteHears(now, report) => RemoteHearsTells(s, l, v, id, now, report, dup);
      case DropToRemote(i) => DownTells(s, l, id, i);
      case DropToBase(i) => DropTells(s, l, id, i);
      case RepeatToRemote(i) => DownTells(s, l, id, i);
      case RepeatToBase(i) => RepeatTells(s, l, id, i);
    }
  }

  lemma OneStepEach(s: System, id: RemoteId, a: Action)
    requires B.WellFormed(s.base)
    ensures |StepFor(s, id, a)| <= 1
  {
  }

  lemma AllowedBefore(id: RemoteId, actions: seq<Action>, dup: bool)
    requires actions != [] && Allowed(StepsFor(id, actions), dup)
    ensures Allowed(StepsFor(id, actions[..|actions| - 1]), dup)
  {
    var before := actions[..|actions| - 1];
    var more := StepFor(Runs(id, before), id, actions[|actions| - 1]);
    OneStepEach(Runs(id, before), id, actions[|actions| - 1]);
    assert StepsFor(id, actions) == StepsFor(id, before) + more;
    AllowedPrefix(StepsFor(id, before), more, dup);
  }

  lemma AllowedPrefix(steps: seq<Step>, more: seq<Step>, dup: bool)
    requires |more| <= 1 && Allowed(steps + more, dup)
    ensures Allowed(steps, dup)
  {
    if more == [] {
      assert steps + more == steps;
    } else {
      assert (steps + more)[..|steps|] == steps;
    }
  }

  lemma StepsMore(steps: seq<Step>, more: seq<Step>)
    requires |more| <= 1
    ensures Run(NEW_LINK, steps + more) == NextAll(Run(NEW_LINK, steps), more)
  {
    if more == [] {
      assert steps + more == steps;
    } else {
      assert more == [more[0]];
      RunMore(steps, more[0]);
    }
  }

  lemma {:induction false} AlwaysTruthful(id: RemoteId, actions: seq<Action>, dup: bool)
    requires Allowed(StepsFor(id, actions), dup)
    ensures Truthful(Runs(id, actions), Run(NEW_LINK, StepsFor(id, actions)))
  {
    if actions != [] {
      var before, a := actions[..|actions| - 1], actions[|actions| - 1];
      AllowedBefore(id, actions, dup);
      AlwaysTruthful(id, before, dup);
      AlwaysSimulated(id, before);
      var s, steps := Runs(id, before), StepsFor(id, before);
      AlwaysTracks(steps, dup);
      AlwaysPlaced(steps, dup);
      StepTells(s, Run(NEW_LINK, steps), Seen(Events(steps), dup), id, a, dup);
      StepsMore(steps, StepFor(s, id, a));
    }
  }

  // ---------------------------------------------------------------------------
  // After a completion beyond doubt
  // ---------------------------------------------------------------------------

  /** The packet the base is about to read completes the pending command. */
  predicate AboutToComplete(s: System, id: RemoteId)
    requires B.WellFormed(s.base)
  {
    && s.toBase != [] && FromRemote(s.toBase[0], id)
    && Contexts.Matches(ContextOf(s, id), DecodedResponse(s.toBase[0]).value)
  }

  lemma HeadTells(s: System, l: Link, id: RemoteId)
    requires B.WellFormed(s.base) && Simulates(s, l, id) && Truthful(s, l) && Placed(l)
    requires AboutToComplete(s, id)
    ensures Completes(l) && (Genuine(l) ==> Tells(s.toBase[0], s.remote.context.moveValue))
  {
    assert Reports(s.toBase[0], l.up[0], id);
    var r := DecodedResponse(s.toBase[0]).value;
    BaseRefines(ContextOf(s, id), Contexts.Receive(r, 0));
    assert l.up[0].number <= l.lastNumber <= l.sent;
  }

  lemma Believed(s: System, id: RemoteId, now: Time)
    requires B.WellFormed(s.base) && AboutToComplete(s, id)
    requires ContextOf(s, id).pending.command.command in {MOVE, STOP, GETSTAT}
    requires Tells(s.toBase[0], s.remote.context.moveValue)
    ensures var t := Perform(s, id, BaseHears(now));
            !ContextOf(t, id).pending.waiting && Remotes.BelievesMovement(ContextOf(t, id), t.remote)
  {
    var e := B.Arrive(B.Arrival(s.toBase[0], now));
    var r := DecodedResponse(s.toBase[0]).value;
    B.IsolatedStep(s.base, e, id);
    assert B.StepsFor(id, e) == [Contexts.Receive(r, now)];
  }

  /**
   * On every run of the full stations: a MOVE, STOP or GETSTAT completed beyond doubt leaves the base believing
   * of the remote's movement what is so.
   */
  lemma BelievesAfterCompletion(id: RemoteId, actions: seq<Action>, now: Time, dup: bool)
    requires Allowed(StepsFor(id, actions), dup) && Sole(Seen(Events(StepsFor(id, actions)), dup))
    requires AboutToComplete(Runs(id, actions), id)
    requires ContextOf(Runs(id, actions), id).pending.command.command in {MOVE, STOP, GETSTAT}
    ensures var t := Runs(id, actions + [BaseHears(now)]);
            !ContextOf(t, id).pending.waiting && Remotes.BelievesMovement(ContextOf(t, id), t.remote)
  {
    var s, steps := Runs(id, actions), StepsFor(id, actions);
    AlwaysSimulated(id, actions);
    AlwaysTruthful(id, actions, dup);
    AlwaysPlaced(steps, dup);
    HeadTells(s, Run(NEW_LINK, steps), id);
    CompletesGenuinely(steps, dup);
    Believed(s, id, now);
    assert (actions + [BaseHears(now)])[..|actions|] == actions;
  }
}

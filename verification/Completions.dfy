/**
 * Whose answer completes a command. Commands other than PING carry no sequence number, so the base can only
 * compare an answer with its pending command; this says exactly, from what the base itself has seen, when that
 * is enough. dup tells whether the channels duplicate frames.
 */
module Completions {
  import opened Bits
  import opened Packet
  import opened Subsequences
  import opened StopAndWait

  /** What an answer and a command have in common: answers to GETSTAT and GETVER do not echo the argument. */
  function KeyOf(command: uint8, argument: int8): Command {
    Command(command, if CarriesData(command) then 0 else argument)
  }

  function Key(c: Command): Command {
    KeyOf(c.command, c.argument)
  }

  // ---------------------------------------------------------------------------
  // What the base sees
  // ---------------------------------------------------------------------------

  datatype Event = Sent(command: Command) | Got(key: Command) | TimedOut

  /** A numbered command, or the answer to it. */
  datatype Mark = Mark(number: nat, key: Command)

  /** open holds the answers the base must still expect from what it has seen, oldest first. */
  datatype View = View(base: Base, sent: nat, open: seq<Mark>)

  const NEW_VIEW := View(NEW_LINK.base, 0, [])

  predicate HasKey(open: seq<Mark>, key: Command) {
    exists m :: m in open && m.key == key
  }

  /** Channels are FIFO: an answer leaves nothing open that is older than the first it can belong to. */
  function Settle(open: seq<Mark>, key: Command, dup: bool): seq<Mark> {
    if open == [] then []
    else if open[0].key == key then if dup then open else open[1..]
    else Settle(open[1..], key, dup)
  }

  function AcceptKey(b: Base, key: Command): Base {
    if b.waiting && key == Key(b.command)
    then b.(waiting := false, sequence := if key.command == PING then (b.sequence + 1) % 0x100 else b.sequence)
    else b
  }

  function OpenedBy(c: Command, number: nat): seq<Mark> {
    if Known(c) then [Mark(number, Key(c))] else []
  }

  function See(v: View, e: Event, dup: bool): View {
    match e
    case Sent(c) => View(Base(true, c, v.base.sequence), v.sent + 1, v.open + OpenedBy(c, v.sent + 1))
    case Got(key) => View(AcceptKey(v.base, key), v.sent, Settle(v.open, key, dup))
    case TimedOut => v.(base := v.base.(waiting := false))
  }

  function Seen(h: seq<Event>, dup: bool): View {
    if h == [] then NEW_VIEW else See(Seen(h[..|h| - 1], dup), h[|h| - 1], dup)
  }

  /** What the base can do, or can be answered, next. */
  predicate Possible(v: View, e: Event) {
    match e
    case Sent(c) => !v.base.waiting && (c.command == PING ==> c.argument == ToInt8(v.base.sequence))
    case Got(key) => HasKey(v.open, key)
    case TimedOut => v.base.waiting
  }

  predicate Feasible(h: seq<Event>, dup: bool) {
    h == [] || (Feasible(h[..|h| - 1], dup) && Possible(Seen(h[..|h| - 1], dup), h[|h| - 1]))
  }

  lemma SeenMore(h: seq<Event>, e: Event, dup: bool)
    ensures Seen(h + [e], dup) == See(Seen(h, dup), e, dup)
    ensures Feasible(h + [e], dup) <==> Feasible(h, dup) && Possible(Seen(h, dup), e)
  {
    assert (h + [e])[..|h|] == h;
  }

  /** What a step of a run shows to the base. */
  function EventOf(l: Link, step: Step): seq<Event> {
    match step
    case SendPing => if l.base.waiting then [] else [Sent(Command(PING, ToInt8(l.base.sequence)))]
    case SendOther(c) => if l.base.waiting || c.command == PING then [] else [Sent(c)]
    case ResponseArrives => if l.up == [] then [] else [Got(KeyOf(l.up[0].command, l.up[0].argument))]
    case Timeout => if l.base.waiting then [TimedOut] else []
    case _ => []
  }

  function Events(steps: seq<Step>): seq<Event> {
    if steps == [] then []
    else Events(steps[..|steps| - 1]) + EventOf(Run(NEW_LINK, steps[..|steps| - 1]), steps[|steps| - 1])
  }

  predicate Allows(dup: bool, step: Step) {
    dup || !(step.DuplicateDown? || step.DuplicateUp?)
  }

  predicate Allowed(steps: seq<Step>, dup: bool) {
    steps == [] || (Allowed(steps[..|steps| - 1], dup) && Allows(dup, steps[|steps| - 1]))
  }

  // ---------------------------------------------------------------------------
  // What is in flight is open
  // ---------------------------------------------------------------------------

  function MarkOf(f: Frame): Mark {
    Mark(f.number, KeyOf(f.command, f.argument))
  }

  function Marks(frames: seq<Frame>): (marks: seq<Mark>)
    ensures |marks| == |frames|
  {
    seq(|frames|, i requires 0 <= i < |frames| => MarkOf(frames[i]))
  }

  /** Everything in flight, oldest first. */
  function Flight(l: Link): seq<Mark> {
    Marks(l.up) + Marks(l.down)
  }

  predicate Older(a: Mark, b: Mark, dup: bool) {
    a.number < b.number || (dup && a.number == b.number)
  }

  ghost predicate InOrder(marks: seq<Mark>, dup: bool) {
    forall i, j :: 0 <= i < j < |marks| ==> Older(marks[i], marks[j], dup)
  }

  ghost predicate Numbered(marks: seq<Mark>, sent: nat) {
    forall i :: 0 <= i < |marks| ==> marks[i].number <= sent
  }

  ghost predicate Expected(flight: seq<Mark>, open: seq<Mark>) {
    forall i :: 0 <= i < |flight| && Known(flight[i].key) ==> flight[i] in open
  }

  ghost predicate Fits(flight: seq<Mark>, open: seq<Mark>, sent: nat, dup: bool) {
    && InOrder(flight, dup) && Numbered(flight, sent) && Expected(flight, open)
    && InOrder(open, false) && Numbered(open, sent)
  }

  ghost predicate AllKnown(frames: seq<Frame>) {
    forall i :: 0 <= i < |frames| ==> Known(MarkOf(frames[i]).key)
  }

  ghost predicate Tracks(l: Link, v: View, dup: bool) {
    l.base == v.base && l.sent == v.sent && AllKnown(l.up) && Fits(Flight(l), v.open, v.sent, dup)
  }

  lemma MarksConcat(a: seq<Frame>, b: seq<Frame>)
    ensures Marks(a + b) == Marks(a) + Marks(b)
  {
  }

  lemma MarksSlices(a: seq<Frame>, i: nat)
    requires i <= |a|
    ensures Marks(a[..i]) == Marks(a)[..i] && Marks(a[i..]) == Marks(a)[i..]
  {
  }

  lemma FitsWithout(flight: seq<Mark>, i: nat, open: seq<Mark>, sent: nat, dup: bool)
    requires i < |flight| && Fits(flight, open, sent, dup)
    ensures Fits(Lose(flight, i), open, sent, dup)
  {
    var kept := Lose(flight, i);
    forall k | 0 <= k < |kept| ensures kept[k] == flight[if k < i then k else k + 1] {
    }
  }

  lemma FitsTwice(flight: seq<Mark>, i: nat, open: seq<Mark>, sent: nat)
    requires i < |flight| && Fits(flight, open, sent, true)
    ensures Fits(Duplicate(flight, i), open, sent, true)
  {
    var more := Duplicate(flight, i);
    forall k | 0 <= k < |more| ensures more[k] == flight[if k <= i then k else k - 1] {
    }
  }

  lemma FitsSent(flight: seq<Mark>, open: seq<Mark>, sent: nat, c: Command, dup: bool)
    requires Fits(flight, open, sent, dup)
    ensures Fits(flight + [Mark(sent + 1, Key(c))], open + OpenedBy(c, sent + 1), sent + 1, dup)
  {
    var m, more := Mark(sent + 1, Key(c)), open + OpenedBy(c, sent + 1);
    assert forall x :: x in open ==> x in more;
    assert Known(c) ==> more[|open|] == m;
  }

  /** What is younger than an answer is still open after it. */
  lemma {:induction false} SettleKeeps(open: seq<Mark>, m: Mark, x: Mark, dup: bool)
    requires InOrder(open, false) && m in open && x in open && Older(m, x, dup)
    ensures x in Settle(open, m.key, dup)
  {
    if open[0].key == m.key {
      if x == open[0] {
        HeadOldest(open, m);
      }
    } else {
      HeadOldest(open, m);
      assert m in open[1..];
      if x == open[0] {
        HeadOldest(open, m);
      } else {
        SettleKeeps(open[1..], m, x, dup);
      }
    }
  }

  lemma HeadOldest(open: seq<Mark>, m: Mark)
    requires InOrder(open, false) && m in open
    ensures open[0].number <= m.number && (open[0].number == m.number ==> m == open[0])
  {
    var i :| 0 <= i < |open| && open[i] == m;
    assert i == 0 || Older(open[0], open[i], false);
  }

  lemma {:induction false} SettleOpen(open: seq<Mark>, key: Command, sent: nat, dup: bool)
    requires InOrder(open, false) && Numbered(open, sent)
    ensures InOrder(Settle(open, key, dup), false) && Numbered(Settle(open, key, dup), sent)
  {
    if open != [] && open[0].key != key {
      SettleOpen(open[1..], key, sent, dup);
    }
  }

  lemma FitsGot(flight: seq<Mark>, open: seq<Mark>, sent: nat, dup: bool)
    requires flight != [] && Known(flight[0].key) && Fits(flight, open, sent, dup)
    ensures Fits(flight[1..], Settle(open, flight[0].key, dup), sent, dup)
  {
    var rest, left := flight[1..], Settle(open, flight[0].key, dup);
    SettleOpen(open, flight[0].key, sent, dup);
    forall i | 0 <= i < |rest| && Known(rest[i].key) ensures rest[i] in left {
      assert rest[i] == flight[i + 1] && Older(flight[0], flight[i + 1], dup);
      SettleKeeps(open, flight[0], rest[i], dup);
    }
  }

  lemma AcceptsByKey(b: Base, f: Frame)
    ensures var r := Response(0, f.command, f.argument, []);
            && (Matches(b, r) <==> b.waiting && MarkOf(f).key == Key(b.command))
            && Accept(b, r) == AcceptKey(b, MarkOf(f).key)
  {
  }

  lemma SendTracks(l: Link, v: View, c: Command, dup: bool)
    requires Tracks(l, v, dup) && !l.base.waiting
    ensures Tracks(Send(l, c), See(v, Sent(c), dup), dup)
  {
    var f := Frame(c.command, c.argument, l.accepted + 1, l.sent + 1);
    FitsSent(Flight(l), v.open, v.sent, c, dup);
    MarksConcat(l.down, [f]);
    assert Marks([f]) == [Mark(v.sent + 1, Key(c))];
    assert Flight(Send(l, c)) == Flight(l) + [Mark(v.sent + 1, Key(c))];
  }

  lemma CommandTracks(l: Link, v: View, length: int8, dup: bool)
    requires Tracks(l, v, dup) && l.down != []
    ensures Tracks(HearCommand(l, length), v, dup)
  {
    var f, ups := l.down[0], Marks(l.up);
    var answer := AnswerTo(f, length);
    MarksSlices(l.down, 1);
    assert Marks(l.down)[0] == MarkOf(f) == MarkOf(answer);
    if Known(Command(f.command, f.argument)) {
      MarksConcat(l.up, [answer]);
      assert Marks([answer]) == [MarkOf(f)];
      assert Flight(HearCommand(l, length)) == Flight(l);
    } else {
      assert Flight(HearCommand(l, length)) == Lose(Flight(l), |ups|);
      FitsWithout(Flight(l), |ups|, v.open, v.sent, dup);
    }
  }

  lemma ResponseTracks(l: Link, v: View, dup: bool)
    requires Tracks(l, v, dup) && l.up != []
    ensures Tracks(HearResponse(l), See(v, Got(MarkOf(l.up[0]).key), dup), dup)
    ensures MarkOf(l.up[0]) in v.open
  {
    var flight := Flight(l);
    AcceptsByKey(l.base, l.up[0]);
    assert flight[0] == MarkOf(l.up[0]);
    MarksSlices(l.up, 1);
    assert Flight(HearResponse(l)) == flight[1..];
    FitsGot(flight, v.open, v.sent, dup);
  }

  lemma WithoutAfter<T>(a: seq<T>, b: seq<T>, i: nat)
    requires i < |b|
    ensures a + Lose(b, i) == Lose(a + b, |a| + i)
  {
  }

  lemma TwiceAfter<T>(a: seq<T>, b: seq<T>, i: nat)
    requires i < |b|
    ensures a + Duplicate(b, i) == Duplicate(a + b, |a| + i)
  {
  }

  lemma MarksWithout(a: seq<Frame>, i: nat)
    requires i < |a|
    ensures Marks(Lose(a, i)) == Lose(Marks(a), i)
  {
    MarksConcat(a[..i], a[i + 1..]);
    MarksSlices(a, i);
    MarksSlices(a, i + 1);
  }

  lemma MarksTwice(a: seq<Frame>, i: nat)
    requires i < |a|
    ensures Marks(Duplicate(a, i)) == Duplicate(Marks(a), i)
  {
    MarksConcat(a[..i + 1], a[i..]);
    MarksSlices(a, i);
    MarksSlices(a, i + 1);
  }

  lemma LoseUpTracks(l: Link, v: View, i: nat, dup: bool)
    requires Tracks(l, v, dup)
    ensures Tracks(l.(up := Lose(l.up, i)), v, dup)
  {
    if i < |l.up| {
      MarksWithout(l.up, i);
      FitsWithout(Flight(l), i, v.open, v.sent, dup);
      assert Flight(l.(up := Lose(l.up, i))) == Lose(Flight(l), i);
    }
  }

  lemma LoseDownTracks(l: Link, v: View, i: nat, dup: bool)
    requires Tracks(l, v, dup)
    ensures Tracks(l.(down := Lose(l.down, i)), v, dup)
  {
    if i < |l.down| {
      MarksWithout(l.down, i);
      FitsWithout(Flight(l), |l.up| + i, v.open, v.sent, dup);
      WithoutAfter(Marks(l.up), Marks(l.down), i);
    }
  }

  lemma DuplicateUpTracks(l: Link, v: View, i: nat)
    requires Tracks(l, v, true)
    ensures Tracks(l.(up := Duplicate(l.up, i)), v, true)
  {
    if i < |l.up| {
      MarksTwice(l.up, i);
      FitsTwice(Flight(l), i, v.open, v.sent);
      assert Flight(l.(up := Duplicate(l.up, i))) == Duplicate(Flight(l), i);
    }
  }

  lemma DuplicateDownTracks(l: Link, v: View, i: nat)
    requires Tracks(l, v, true)
    ensures Tracks(l.(down := Duplicate(l.down, i)), v, true)
  {
    if i < |l.down| {
      MarksTwice(l.down, i);
      FitsTwice(Flight(l), |l.up| + i, v.open, v.sent);
      TwiceAfter(Marks(l.up), Marks(l.down), i);
    }
  }

  function SeeAll(v: View, es: seq<Event>, dup: bool): View
    requires |es| <= 1
  {
    if es == [] then v else See(v, es[0], dup)
  }

  lemma NextTracks(l: Link, v: View, step: Step, dup: bool)
    requires Tracks(l, v, dup) && Allows(dup, step)
    ensures |EventOf(l, step)| <= 1
    ensures Tracks(Next(l, step), SeeAll(v, EventOf(l, step), dup), dup)
    ensures EventOf(l, step) != [] ==> Possible(v, EventOf(l, step)[0])
  {
    match step
    case SendPing => if !l.base.waiting { SendTracks(l, v, Command(PING, ToInt8(l.base.sequence)), dup); }
    case SendOther(c) => if !l.base.waiting { SendTracks(l, v, c, dup); }
    case CommandArrives(length) => if l.down != [] { CommandTracks(l, v, length, dup); }
    case ResponseArrives => if l.up != [] { ResponseTracks(l, v, dup); }
    case LoseDown(i) => LoseDownTracks(l, v, i, dup);
    case LoseUp(i) => LoseUpTracks(l, v, i, dup);
    case DuplicateDown(i) => DuplicateDownTracks(l, v, i);
    case DuplicateUp(i) => DuplicateUpTracks(l, v, i);
    case Timeout =>
    case SetPower(_) =>
  }

  /** On every run: what the base sees is feasible, and every answer in flight is one it still expects. */
  lemma {:induction false} AlwaysTracks(steps: seq<Step>, dup: bool)
    requires Allowed(steps, dup)
    ensures Feasible(Events(steps), dup) && Tracks(Run(NEW_LINK, steps), Seen(Events(steps), dup), dup)
  {
    if steps != [] {
      var n := |steps| - 1;
      AlwaysTracks(steps[..n], dup);
      var l, h := Run(NEW_LINK, steps[..n]), Events(steps[..n]);
      NextTracks(l, Seen(h, dup), steps[n], dup);
      var more := EventOf(l, steps[n]);
      if more == [] {
        assert h + more == h;
      } else {
        assert more == [more[0]];
        SeenMore(h, more[0], dup);
      }
    }
  }

  // ---------------------------------------------------------------------------
  // What is open can be in flight
  // ---------------------------------------------------------------------------

  lemma {:induction false} SubCons<T>(x: T, a: seq<T>, b: seq<T>)
    requires Sub(a, b)
    ensures Sub([x] + a, [x] + b)
    decreases |b|
  {
    if b == [] {
      SubSelf([x]);
      assert [x] + a == [x] == [x] + b;
    } else {
      var m := |b| - 1;
      assert b == b[..m] + [b[m]] && [x] + b == ([x] + b[..m]) + [b[m]];
      if a != [] && a[|a| - 1] == b[m] && Sub(a[..|a| - 1], b[..m]) {
        SubCons(x, a[..|a| - 1], b[..m]);
        SubAppend([x] + a[..|a| - 1], [x] + b[..m], b[m]);
        assert [x] + a == ([x] + a[..|a| - 1]) + [b[m]];
      } else {
        SubCons(x, a, b[..m]);
        SubAppend([x] + a, [x] + b[..m], b[m]);
      }
    }
  }

  lemma {:induction false} SubLater<T>(x: T, a: seq<T>, b: seq<T>)
    requires Sub(a, b)
    ensures Sub(a, [x] + b)
    decreases |b|
  {
    if a != [] {
      var m := |b| - 1;
      assert [x] + b == ([x] + b[..m]) + [b[m]];
      if a[|a| - 1] == b[m] && Sub(a[..|a| - 1], b[..m]) {
        SubLater(x, a[..|a| - 1], b[..m]);
        SubAppend(a[..|a| - 1], [x] + b[..m], b[m]);
        assert a == a[..|a| - 1] + [b[m]];
      } else {
        SubLater(x, a, b[..m]);
        SubAppend(a, [x] + b[..m], b[m]);
      }
    }
  }

  lemma SubOfOne<T>(x: T, a: seq<T>)
    requires a != [] && Sub(a, [x] + [])
    ensures a == [x]
  {
    var b, n := [x] + [], |a| - 1;
    assert b == [x] && b[..0] == [];
    NotSubOfNone(a, b[..0]);
    NotSubOfNone(a[..n], b[..0]);
    assert a == a[..n] + [a[n]];
  }

  lemma NotSubOfNone<T>(a: seq<T>, b: seq<T>)
    requires b == []
    ensures Sub(a, b) <==> a == []
  {
  }

  lemma TailOfAppend<T>(a: seq<T>, x: T)
    requires a != []
    ensures (a + [x])[1..] == a[1..] + [x]
  {
  }

  lemma {:induction false} SubHead<T>(x: T, a: seq<T>, b: seq<T>)
    requires Sub(a, [x] + b)
    ensures Sub(a, b) || (a != [] && a[0] == x && Sub(a[1..], b))
    decreases |b|
  {
    if a != [] {
      var m, n := |b| - 1, |a| - 1;
      var all := [x] + b;
      if b == [] {
        SubOfOne(x, a);
      } else {
        assert all[..|all| - 1] == [x] + b[..m] && b == b[..m] + [b[m]];
        if a[n] == b[m] && Sub(a[..n], [x] + b[..m]) {
          SubHead(x, a[..n], b[..m]);
          assert a == a[..n] + [b[m]];
          if Sub(a[..n], b[..m]) {
            SubAppend(a[..n], b[..m], b[m]);
          } else {
            SubAppend(a[..n][1..], b[..m], b[m]);
            TailOfAppend(a[..n], b[m]);
          }
        } else {
          SubHead(x, a, b[..m]);
          if Sub(a, b[..m]) {
            SubAppend(a, b[..m], b[m]);
          } else {
            SubAppend(a[1..], b[..m], b[m]);
          }
        }
      }
    }
  }

  /** Before an answer with that key anything open after it could be in flight, behind the answer. */
  lemma {:induction false} BeforeSettle(s: seq<Mark>, open: seq<Mark>, key: Command, dup: bool) returns (m: Mark)
    requires HasKey(open, key) && Sub(s, Settle(open, key, dup))
    ensures m.key == key
    ensures Sub([m] + s, open) || (dup && s != [] && s[0] == m && Sub(s, open))
  {
    assert open == [open[0]] + open[1..];
    if open[0].key == key {
      m := open[0];
      if dup {
        SubHead(m, s, open[1..]);
      }
      if Sub(s, open[1..]) {
        SubCons(m, s, open[1..]);
      }
    } else {
      m := BeforeSettle(s, open[1..], key, dup);
      if Sub([m] + s, open[1..]) {
        SubLater(open[0], [m] + s, open[1..]);
      } else {
        SubLater(open[0], s, open[1..]);
      }
    }
  }

  /** The run has shown the base h and has exactly the marks s on their way to it. */
  ghost predicate Realises(steps: seq<Step>, h: seq<Event>, s: seq<Mark>, dup: bool) {
    && Allowed(steps, dup) && Events(steps) == h
    && Run(NEW_LINK, steps).down == [] && Marks(Run(NEW_LINK, steps).up) == s
  }

  lemma OneStep(steps: seq<Step>, step: Step, dup: bool)
    requires Allowed(steps, dup) && Allows(dup, step)
    ensures Allowed(steps + [step], dup)
    ensures Run(NEW_LINK, steps + [step]) == Next(Run(NEW_LINK, steps), step)
    ensures Events(steps + [step]) == Events(steps) + EventOf(Run(NEW_LINK, steps), step)
  {
    assert (steps + [step])[..|steps|] == steps;
  }

  function SendStep(c: Command): Step {
    if c.command == PING then SendPing else SendOther(c)
  }

  /** The command has been sent and is on its way. */
  ghost predicate Sending(steps: seq<Step>, h: seq<Event>, s: seq<Mark>, f: Frame, dup: bool) {
    && Allowed(steps, dup) && Events(steps) == h
    && Run(NEW_LINK, steps).down == [f] && Marks(Run(NEW_LINK, steps).up) == s
  }

  lemma SendStepSends(l: Link, c: Command)
    requires !l.base.waiting && (c.command == PING ==> c.argument == ToInt8(l.base.sequence)) && l.down == []
    ensures Next(l, SendStep(c)) == Send(l, c) && EventOf(l, SendStep(c)) == [Sent(c)]
    ensures Send(l, c).down == [Frame(c.command, c.argument, l.accepted + 1, l.sent + 1)] && Send(l, c).up == l.up
  {
  }

  /** The base is as it sees itself. */
  lemma SeesItself(steps: seq<Step>, h: seq<Event>, dup: bool)
    requires Allowed(steps, dup) && Events(steps) == h
    ensures Run(NEW_LINK, steps).base == Seen(h, dup).base && Run(NEW_LINK, steps).sent == Seen(h, dup).sent
  {
    AlwaysTracks(steps, dup);
  }

  lemma RealiseSend(steps: seq<Step>, h: seq<Event>, s: seq<Mark>, c: Command, dup: bool) returns (f: Frame)
    requires Realises(steps, h, s, dup) && Possible(Seen(h, dup), Sent(c))
    ensures Sending(steps + [SendStep(c)], h + [Sent(c)], s, f, dup)
    ensures f.command == c.command && MarkOf(f) == Mark(Seen(h, dup).sent + 1, Key(c))
  {
    SeesItself(steps, h, dup);
    var l := Run(NEW_LINK, steps);
    SendStepSends(l, c);
    OneStep(steps, SendStep(c), dup);
    f := Frame(c.command, c.argument, l.accepted + 1, l.sent + 1);
    SendingFrom(steps + [SendStep(c)], Send(l, c), h + [Sent(c)], s, f, dup);
  }

  lemma SendingFrom(steps: seq<Step>, l: Link, h: seq<Event>, s: seq<Mark>, f: Frame, dup: bool)
    requires Allowed(steps, dup) && Run(NEW_LINK, steps) == l
    requires Events(steps) == h
    requires l.down == [f]
    requires Marks(l.up) == s
    ensures Sending(steps, h, s, f, dup)
  {
  }

  lemma RealiseAnswered(steps: seq<Step>, h: seq<Event>, s: seq<Mark>, c: Command, dup: bool)
    returns (more: seq<Step>)
    requires Realises(steps, h, s, dup) && Possible(Seen(h, dup), Sent(c)) && Known(c)
    ensures Realises(more, h + [Sent(c)], s + [Mark(Seen(h, dup).sent + 1, Key(c))], dup)
  {
    var f := RealiseSend(steps, h, s, c, dup);
    RealiseArrival(steps + [SendStep(c)], h + [Sent(c)], s, f, dup);
    more := steps + [SendStep(c)] + [CommandArrives(0)];
  }

  lemma RealiseLost(steps: seq<Step>, h: seq<Event>, s: seq<Mark>, c: Command, dup: bool)
    returns (more: seq<Step>)
    requires Realises(steps, h, s, dup) && Possible(Seen(h, dup), Sent(c))
    ensures Realises(more, h + [Sent(c)], s, dup)
  {
    var f := RealiseSend(steps, h, s, c, dup);
    RealiseLoss(steps + [SendStep(c)], h + [Sent(c)], s, f, dup);
    more := steps + [SendStep(c)] + [LoseDown(0)];
  }

  lemma RealiseLoss(steps: seq<Step>, h: seq<Event>, s: seq<Mark>, f: Frame, dup: bool)
    requires Sending(steps, h, s, f, dup)
    ensures Realises(steps + [LoseDown(0)], h, s, dup)
  {
    OneStep(steps, LoseDown(0), dup);
    assert h + [] == h;
  }

  lemma RealiseArrival(steps: seq<Step>, h: seq<Event>, s: seq<Mark>, f: Frame, dup: bool)
    requires Sending(steps, h, s, f, dup) && Known(Command(f.command, f.argument))
    ensures Realises(steps + [CommandArrives(0)], h, s + [MarkOf(f)], dup)
  {
    OneStep(steps, CommandArrives(0), dup);
    assert h + [] == h;
    MarksConcat(Run(NEW_LINK, steps).up, [AnswerTo(f, 0)]);
    assert Marks([AnswerTo(f, 0)]) == [MarkOf(f)];
  }

  lemma RealiseGot(steps: seq<Step>, h: seq<Event>, s: seq<Mark>, m: Mark, dup: bool)
    returns (more: seq<Step>)
    requires Realises(steps, h, [m] + s, dup)
    ensures Realises(more, h + [Got(m.key)], s, dup)
  {
    var l := Run(NEW_LINK, steps);
    OneStep(steps, ResponseArrives, dup);
    more := steps + [ResponseArrives];
    assert Marks(l.up)[0] == MarkOf(l.up[0]) == m;
    MarksSlices(l.up, 1);
    assert ([m] + s)[1..] == s;
  }

  /** A duplicate of the head answers, and the head stays. */
  lemma RealiseDuplicate(steps: seq<Step>, h: seq<Event>, s: seq<Mark>)
    returns (more: seq<Step>)
    requires s != [] && Realises(steps, h, s, true)
    ensures Realises(more, h, [s[0]] + s, true)
  {
    var l := Run(NEW_LINK, steps);
    OneStep(steps, DuplicateUp(0), true);
    more := steps + [DuplicateUp(0)];
    MarksConcat(l.up[..1], l.up);
    MarksSlices(l.up, 1);
    assert Marks(l.up)[..1] == [s[0]];
    assert h + [] == h;
  }

  lemma RealiseTimeout(steps: seq<Step>, h: seq<Event>, s: seq<Mark>, dup: bool)
    returns (more: seq<Step>)
    requires Realises(steps, h, s, dup) && Possible(Seen(h, dup), TimedOut)
    ensures Realises(more, h + [TimedOut], s, dup)
  {
    SeesItself(steps, h, dup);
    OneStep(steps, Timeout, dup);
    more := steps + [Timeout];
  }

  /** Whatever the base has seen, any selection of the answers still open may be what is on its way. */
  lemma {:induction false} Realise(h: seq<Event>, s: seq<Mark>, dup: bool) returns (steps: seq<Step>)
    requires Feasible(h, dup) && Sub(s, Seen(h, dup).open)
    ensures Realises(steps, h, s, dup)
    decreases |h|, 0
  {
    if h == [] {
      steps := [];
      return;
    }
    var before, e := h[..|h| - 1], h[|h| - 1];
    var v := Seen(before, dup);
    assert h == before + [e];
    match e
    case TimedOut =>
      steps := Realise(before, s, dup);
      steps := RealiseTimeout(steps, before, s, dup);
    case Sent(c) =>
      steps := RealiseAfterSent(before, s, c, dup);
    case Got(key) =>
      var m := BeforeSettle(s, v.open, key, dup);
      if Sub([m] + s, v.open) {
        steps := Realise(before, [m] + s, dup);
      } else {
        steps := Realise(before, s, dup);
        steps := RealiseDuplicate(steps, before, s);
      }
      steps := RealiseGot(steps, before, s, m, dup);
  }

  lemma {:induction false} RealiseAfterSent(h: seq<Event>, s: seq<Mark>, c: Command, dup: bool)
    returns (steps: seq<Step>)
    requires Feasible(h, dup) && Possible(Seen(h, dup), Sent(c)) && Sub(s, See(Seen(h, dup), Sent(c), dup).open)
    ensures Realises(steps, h + [Sent(c)], s, dup)
    decreases |h|, 1
  {
    var open, m := Seen(h, dup).open, Mark(Seen(h, dup).sent + 1, Key(c));
    var n := |s| - 1;
    if Known(c) && s != [] && s[n] == m && Sub(s[..n], open) {
      InitLast(s);
      steps := Realise(h, s[..n], dup);
      steps := RealiseAnswered(steps, h, s[..n], c, dup);
    } else {
      NotAdded(s, open, OpenedBy(c, m.number));
      steps := Realise(h, s, dup);
      steps := RealiseLost(steps, h, s, c, dup);
    }
  }

  lemma InitLast<T>(s: seq<T>)
    requires s != []
    ensures s == s[..|s| - 1] + [s[|s| - 1]]
  {
  }

  lemma NotAdded(s: seq<Mark>, open: seq<Mark>, more: seq<Mark>)
    requires |more| <= 1 && Sub(s, open + more)
    requires more == [] || s == [] || s[|s| - 1] != more[0] || !Sub(s[..|s| - 1], open)
    ensures Sub(s, open)
  {
    if more == [] {
      assert open + more == open;
    } else {
      assert (open + more)[..|open|] == open;
    }
  }

  // ---------------------------------------------------------------------------
  // Exactly when an answer is the pending command's own
  // ---------------------------------------------------------------------------

  /** The answer about to arrive will complete the pending command. */
  predicate Completes(l: Link) {
    l.up != [] && Matches(l.base, Response(0, l.up[0].command, l.up[0].argument, []))
  }

  predicate Genuine(l: Link)
    requires l.up != []
  {
    l.up[0].number == l.sent
  }

  /** No other answer still open looks like the pending command's. */
  predicate Sole(v: View) {
    forall m :: m in v.open && m.key == Key(v.base.command) ==> m.number == v.sent
  }

  lemma CompletesGenuinely(steps: seq<Step>, dup: bool)
    requires Allowed(steps, dup) && Completes(Run(NEW_LINK, steps)) && Sole(Seen(Events(steps), dup))
    ensures Genuine(Run(NEW_LINK, steps))
  {
    AlwaysTracks(steps, dup);
    var l := Run(NEW_LINK, steps);
    AcceptsByKey(l.base, l.up[0]);
    ResponseTracks(l, Seen(Events(steps), dup), dup);
  }

  lemma {:induction false} SubOne<T>(x: T, b: seq<T>)
    requires x in b
    ensures Sub([x], b)
  {
    var m := |b| - 1;
    assert [x][..0] == [];
    if x != b[m] {
      SubOne(x, b[..m]);
    }
  }

  lemma StaleCompletes(h: seq<Event>, dup: bool) returns (steps: seq<Step>)
    requires Feasible(h, dup) && Seen(h, dup).base.waiting && !Sole(Seen(h, dup))
    ensures Allowed(steps, dup) && Events(steps) == h
    ensures Completes(Run(NEW_LINK, steps)) && !Genuine(Run(NEW_LINK, steps))
  {
    var v := Seen(h, dup);
    var m :| m in v.open && m.key == Key(v.base.command) && m.number != v.sent;
    SubOne(m, v.open);
    steps := Realise(h, [m], dup);
    AlwaysTracks(steps, dup);
    var l := Run(NEW_LINK, steps);
    assert MarkOf(l.up[0]) == Marks(l.up)[0] == m;
    AcceptsByKey(l.base, l.up[0]);
  }

  /** A run that shows the base h and completes its pending command next. */
  ghost predicate CompletesAfter(steps: seq<Step>, h: seq<Event>, dup: bool) {
    Allowed(steps, dup) && Events(steps) == h && Completes(Run(NEW_LINK, steps))
  }

  ghost predicate AlwaysGenuine(h: seq<Event>, dup: bool) {
    forall steps :: CompletesAfter(steps, h, dup) ==> Genuine(Run(NEW_LINK, steps))
  }

  /**
   * Whatever the base has seen: every answer that can complete the pending command is the command's own exactly
   * if no other answer still open has its key.
   */
  lemma GenuineIff(h: seq<Event>, dup: bool)
    requires Feasible(h, dup) && Seen(h, dup).base.waiting
    ensures AlwaysGenuine(h, dup) <==> Sole(Seen(h, dup))
  {
    if Sole(Seen(h, dup)) {
      forall steps | CompletesAfter(steps, h, dup) ensures Genuine(Run(NEW_LINK, steps)) {
        CompletesGenuinely(steps, dup);
      }
    } else {
      var steps := StaleCompletes(h, dup);
      assert CompletesAfter(steps, h, dup);
    }
  }

  // ---------------------------------------------------------------------------
  // Where other answers come from
  // ---------------------------------------------------------------------------

  /** An earlier command with that key, numbered no higher, has timed out. */
  ghost predicate TimedOutTwin(h: seq<Event>, m: Mark) {
    exists i :: 0 <= i < |h| && TimesOutLike(h, i, m)
  }

  predicate TimesOutLike(h: seq<Event>, i: nat, m: Mark)
    requires i < |h|
  {
    h[i].TimedOut? && Key(Seen(h[..i], false).base.command) == m.key && Seen(h[..i], false).sent <= m.number
  }

  /** An earlier command like the one pending has timed out. */
  ghost predicate TimedOutBefore(h: seq<Event>) {
    var v := Seen(h, false);
    v.sent > 0 && TimedOutTwin(h, Mark(v.sent - 1, Key(v.base.command)))
  }

  lemma TwinLater(h: seq<Event>, e: Event, m: Mark)
    requires TimedOutTwin(h, m)
    ensures TimedOutTwin(h + [e], m)
  {
    var i :| 0 <= i < |h| && TimesOutLike(h, i, m);
    assert (h + [e])[..i] == h[..i];
    assert TimesOutLike(h + [e], i, m);
  }

  /** Every answer open is the pending command's, or has a twin that timed out. */
  ghost predicate Explained(h: seq<Event>, v: View) {
    forall m :: m in v.open ==> IsPending(v, m) || TimedOutTwin(h, m)
  }

  predicate IsPending(v: View, m: Mark) {
    v.base.waiting && m == Mark(v.sent, Key(v.base.command))
  }

  lemma {:induction false} SettleWithin(open: seq<Mark>, key: Command, dup: bool)
    ensures forall m :: m in Settle(open, key, dup) ==> m in open
  {
    if open != [] && open[0].key != key {
      SettleWithin(open[1..], key, dup);
    }
  }

  /** Without duplication the first mark an answer can belong to is closed by it. */
  lemma {:induction false} SettleFirst(open: seq<Mark>, key: Command) returns (oldest: Mark)
    requires HasKey(open, key) && InOrder(open, false)
    ensures oldest in open && oldest.key == key
    ensures forall m :: m in Settle(open, key, false) ==> oldest.number < m.number
  {
    if open[0].key == key {
      oldest := open[0];
      forall m | m in open[1..] ensures oldest.number < m.number {
        var i :| 0 <= i < |open| - 1 && open[1..][i] == m;
        assert Older(open[0], open[i + 1], false);
      }
    } else {
      oldest := SettleFirst(open[1..], key);
    }
  }

  lemma GotExplained(h: seq<Event>, v: View, key: Command)
    requires Explained(h, v) && HasKey(v.open, key) && InOrder(v.open, false)
    ensures Explained(h + [Got(key)], See(v, Got(key), false))
  {
    var after := See(v, Got(key), false);
    SettleWithin(v.open, key, false);
    var oldest := SettleFirst(v.open, key);
    forall m | m in after.open && !IsPending(after, m) ensures TimedOutTwin(h + [Got(key)], m) {
      if IsPending(v, m) {
        assert key == m.key && !IsPending(v, oldest);
        var i :| 0 <= i < |h| && TimesOutLike(h, i, oldest);
        assert TimesOutLike(h, i, m);
      }
      TwinLater(h, Got(key), m);
    }
  }

  lemma TimeoutExplained(h: seq<Event>, v: View)
    requires Explained(h, v) && v == Seen(h, false) && v.base.waiting
    ensures Explained(h + [TimedOut], See(v, TimedOut, false))
  {
    forall m | m in v.open ensures TimedOutTwin(h + [TimedOut], m) {
      if IsPending(v, m) {
        assert (h + [TimedOut])[..|h|] == h;
        assert TimesOutLike(h + [TimedOut], |h|, m);
      } else {
        TwinLater(h, TimedOut, m);
      }
    }
  }

  lemma SentExplained(h: seq<Event>, v: View, c: Command)
    requires Explained(h, v) && !v.base.waiting
    ensures Explained(h + [Sent(c)], See(v, Sent(c), false))
  {
    var after := See(v, Sent(c), false);
    forall m | m in after.open && !IsPending(after, m) ensures TimedOutTwin(h + [Sent(c)], m) {
      assert m in v.open;
      TwinLater(h, Sent(c), m);
    }
  }

  lemma {:induction false} AlwaysExplained(h: seq<Event>)
    requires Feasible(h, false)
    ensures Explained(h, Seen(h, false)) && InOrder(Seen(h, false).open, false)
    ensures Numbered(Seen(h, false).open, Seen(h, false).sent)
  {
    if h != [] {
      var before, e := h[..|h| - 1], h[|h| - 1];
      var v := Seen(before, false);
      AlwaysExplained(before);
      assert h == before + [e];
      match e
      case Sent(c) => SentExplained(before, v, c);
      case Got(key) =>
        GotExplained(before, v, key);
        SettleOpen(v.open, key, v.sent, false);
      case TimedOut => TimeoutExplained(before, v);
    }
  }

  /** Without duplication only a command with the same key that has timed out can put the answer in doubt. */
  lemma DoubtNeedsTimeout(h: seq<Event>)
    requires Feasible(h, false) && Seen(h, false).base.waiting && !Sole(Seen(h, false))
    ensures TimedOutBefore(h)
  {
    AlwaysExplained(h);
    var v := Seen(h, false);
    var m :| m in v.open && m.key == Key(v.base.command) && m.number != v.sent;
    NumberAtMost(v.open, m, v.sent);
    assert TimedOutTwin(h, m);
    LaterTwin(h, m, v.sent - 1);
  }

  lemma NumberAtMost(open: seq<Mark>, m: Mark, sent: nat)
    requires Numbered(open, sent) && m in open
    ensures m.number <= sent
  {
    var k :| 0 <= k < |open| && open[k] == m;
  }

  lemma LaterTwin(h: seq<Event>, m: Mark, number: nat)
    requires TimedOutTwin(h, m) && m.number <= number
    ensures TimedOutTwin(h, Mark(number, m.key))
  {
    var i :| 0 <= i < |h| && TimesOutLike(h, i, m);
    assert TimesOutLike(h, i, Mark(number, m.key));
  }

  /** So if none has, the answer that completes the command is the command's own. */
  lemma NoTimeoutNoDoubt(steps: seq<Step>)
    requires Allowed(steps, false) && Completes(Run(NEW_LINK, steps)) && !TimedOutBefore(Events(steps))
    ensures Genuine(Run(NEW_LINK, steps))
  {
    var h := Events(steps);
    SeesItself(steps, h, false);
    AlwaysTracks(steps, false);
    if !Sole(Seen(h, false)) {
      DoubtNeedsTimeout(h);
    }
    CompletesGenuinely(steps, false);
  }

  lemma {:induction false} SettleAll(open: seq<Mark>, last: Mark, dup: bool)
    requires InOrder(open, false) && last in open && Numbered(open, last.number)
    requires forall m :: m in open && m.key == last.key ==> m == last
    ensures Settle(open, last.key, dup) == if dup then [last] else []
  {
    HeadOldest(open, last);
    if open[0] == last {
      assert |open| > 1 ==> Older(open[0], open[1], false);
      assert open == [last];
    } else {
      SettleAll(open[1..], last, dup);
    }
  }

  lemma {:induction false} OpenOrdered(h: seq<Event>, dup: bool)
    ensures InOrder(Seen(h, dup).open, false) && Numbered(Seen(h, dup).open, Seen(h, dup).sent)
  {
    if h != [] {
      var v := Seen(h[..|h| - 1], dup);
      OpenOrdered(h[..|h| - 1], dup);
      if h[|h| - 1].Got? {
        SettleOpen(v.open, h[|h| - 1].key, v.sent, dup);
      }
    }
  }

  /** A completion beyond doubt flushes everything older: only duplicates of its own answer may follow. */
  lemma SoleFlushes(h: seq<Event>, dup: bool)
    requires Feasible(h, dup) && Seen(h, dup).base.waiting && Sole(Seen(h, dup))
    requires HasKey(Seen(h, dup).open, Key(Seen(h, dup).base.command))
    ensures var v := Seen(h, dup);
            Seen(h + [Got(Key(v.base.command))], dup).open ==
            if dup then [Mark(v.sent, Key(v.base.command))] else []
  {
    var v := Seen(h, dup);
    OpenOrdered(h, dup);
    SeenMore(h, Got(Key(v.base.command)), dup);
    SettleAll(v.open, Mark(v.sent, Key(v.base.command)), dup);
  }
}

/** The Wanderer's vehicle state machine: arming, steering, the liveness timeout and the Fallback ramp. */
module Tactical {
  import opened Counters

  const LIVENESS_TIMEOUT_US: nat := 750_000
  const FALLBACK_DECEL: nat := 800
  const SECOND_US: nat := 1_000_000
  /** From this gap on (31 days) the step no longer fits the int32_t it is computed in. */
  const MAX_GAP_US: nat := 0x8000_0000 * 1250

  type int16 = x: int | -0x8000 <= x < 0x8000

  datatype State = Safe | Active | Fallback | Fault

  /** Two's-complement truncation to 16 and to 32 bits. */
  function ToInt16(x: int): int16 {
    (x + 0x8000) % 0x1_0000 - 0x8000
  }

  function ToInt32(x: int): (r: int)
    ensures -0x8000_0000 <= r < 0x8000_0000
  {
    (x + 0x8000_0000) % 0x1_0000_0000 - 0x8000_0000
  }

  function Abs(x: int): nat {
    if x < 0 then -x else x
  }

  // ---------------------------------------------------------------------------
  // The ramp's arithmetic
  // ---------------------------------------------------------------------------

  /** C++ integer division, which rounds towards zero. */
  function Quotient(a: int, b: int): int
    requires b > 0
  {
    if a < 0 then -(-a / b) else a / b
  }

  function RampStep(dt: int): int {
    ToInt32(Quotient(FALLBACK_DECEL * dt, SECOND_US))
  }

  function Decay(v: int16, step: int): int16 {
    var w: int := v;
    if w > 0 then ToInt16(if w > step then w - step else 0)
    else if w < 0 then ToInt16(if -w > step then w + step else 0)
    else 0
  }

  /** v moved towards zero by s, stopping there. */
  function Shrink(v: int16, s: nat): int16 {
    var w: int := v;
    if w > s then w - s else if -w > s then w + s else 0
  }

  lemma DecayShrinks(v: int16, step: nat)
    ensures Decay(v, step) == Shrink(v, step)
  {
  }

  lemma ShrinkTwice(v: int16, s: nat, t: nat)
    ensures Shrink(Shrink(v, s), t) == Shrink(v, s + t)
  {
  }

  /** Dividing microseconds by a million drops the fraction, of a negative number too. */
  lemma QuotientTruncates(a: int)
    ensures var q := Quotient(a, 1_000_000);
            && 1_000_000 * Abs(q) <= Abs(a) < 1_000_000 * (Abs(q) + 1)
            && (a >= 0 ==> q >= 0) && (a <= 0 ==> q <= 0)
  {
  }

  /** The step is the truncated quotient exactly below the overflow gap, and zero exactly under 1250 microseconds. */
  lemma RampStepExact(dt: nat)
    ensures RampStep(dt) == dt / 1250 <==> dt < MAX_GAP_US
    ensures dt < MAX_GAP_US ==> (RampStep(dt) == 0 <==> dt < 1250)
  {
    assert FALLBACK_DECEL * dt / SECOND_US == dt / 1250;
  }

  lemma OverflowedDecay(v: int16, step: int)
    requires -0x8000_0000 <= step < 0 && step % 0x1_0000 <= 2
    ensures Abs(Decay(v, step)) <= Abs(v)
  {
    var turns, s := step / 0x1_0000, step % 0x1_0000;
    assert step == 0x1_0000 * turns + s;
    Turns((v as int) - s, -turns);
    Turns((v as int) + s, turns);
  }

  /** Truncation forgets whole turns. */
  lemma Turns(x: int, turns: int)
    ensures ToInt16(x + 0x1_0000 * turns) == ToInt16(x)
    ensures -0x8000 <= x < 0x8000 ==> ToInt16(x) == x
  {
  }

  lemma OverflowedDecayOfOne(step: int)
    requires -0x8000_0000 <= step < 0 && step % 0x1_0000 > 2
    ensures Abs(Decay(1, step)) > 1
  {
  }

  /** Exactly which steps never make any output grow: an overflowed step may. */
  lemma DecayNeverGrowsIff(step: int)
    requires -0x8000_0000 <= step < 0x8000_0000
    ensures (forall v: int16 :: Abs(Decay(v, step)) <= Abs(v)) <==> step >= 0 || step % 0x1_0000 <= 2
  {
    if step >= 0 {
      forall v: int16 ensures Abs(Decay(v, step)) <= Abs(v) {
        DecayShrinks(v, step);
      }
    } else if step % 0x1_0000 <= 2 {
      forall v: int16 ensures Abs(Decay(v, step)) <= Abs(v) {
        OverflowedDecay(v, step);
      }
    } else {
      OverflowedDecayOfOne(step);
    }
  }

  // ---------------------------------------------------------------------------
  // The state machine
  // ---------------------------------------------------------------------------

  datatype Core = Core(
    state: State,
    cmdLeft: int16, cmdRight: int16,
    rampLeft: int16, rampRight: int16,
    faultCode: nat,
    lastSeen: Time, lastTick: Time)
  {
    function Output(cmd: int16, ramp: int16): int16 {
      match state
      case Active => cmd
      case Fallback => ramp
      case _ => 0
    }

    function TargetLeft(): int16 {
      Output(cmdLeft, rampLeft)
    }

    function TargetRight(): int16 {
      Output(cmdRight, rampRight)
    }

    predicate MotorsEnabled() {
      state == Active || state == Fallback
    }

    predicate CommanderAlive(now: Time) {
      now - lastSeen < LIVENESS_TIMEOUT_US
    }
  }

  const INITIAL := Core(Safe, 0, 0, 0, 0, 0, 0, 0)

  function Enter(c: Core, next: State, now: Time): Core {
    if next == c.state then c
    else
      var c := if next == Fallback then c.(rampLeft := c.cmdLeft, rampRight := c.cmdRight) else c;
      var c := if next == Safe || next == Fault
               then c.(cmdLeft := 0, cmdRight := 0, rampLeft := 0, rampRight := 0) else c;
      c.(state := next, lastTick := now)
  }

  datatype Op =
    | Alive(now: Time)
    | Arm(now: Time)
    | Stop(now: Time)
    | Move(left: int16, right: int16, now: Time)
    | RaiseFault(code: nat, now: Time)
    | ClearFault(cleared: bool, now: Time)
    | Tick(now: Time)

  /** Whether a MOVE is acted upon in this state. */
  predicate Accepts(c: Core, op: Op) {
    op.Move? && (c.state == Active || c.state == Fallback)
  }

  function Apply(c: Core, op: Op): Core {
    match op
    case Alive(now) => c.(lastSeen := now)
    case Arm(now) => if c.state == Safe then Enter(c, Active, now) else c
    case Stop(now) => if c.state != Fault then Enter(c, Safe, now) else c
    case Move(left, right, now) =>
      var c' := if c.state == Fallback then Enter(c, Active, now) else c;
      if c'.state != Active then c' else c'.(cmdLeft := left, cmdRight := right)
    case RaiseFault(code, now) => Enter(c.(faultCode := code), Fault, now)
    case ClearFault(cleared, now) =>
      if c.state == Fault && cleared then Enter(c.(faultCode := 0), Safe, now) else c
    case Tick(now) =>
      var c' :=
        if c.state == Active && now - c.lastSeen > LIVENESS_TIMEOUT_US then Enter(c, Fallback, now)
        else if c.state == Fallback then
          var step := RampStep(now - c.lastTick);
          c.(rampLeft := Decay(c.rampLeft, step), rampRight := Decay(c.rampRight, step))
        else c;
      c'.(lastTick := now)
  }

  function Run(c: Core, ops: seq<Op>): Core {
    if ops == [] then c else Apply(Run(c, ops[..|ops| - 1]), ops[|ops| - 1])
  }

  /** The clock does not run backwards, and no ramp step spans the overflow gap. */
  predicate OnTime(c: Core, op: Op) {
    && c.lastTick <= op.now && c.lastSeen <= op.now
    && (op.Tick? && c.state == Fallback ==> op.now - c.lastTick < MAX_GAP_US)
  }

  predicate Timely(c: Core, ops: seq<Op>) {
    ops == [] ||
    (Timely(c, ops[..|ops| - 1]) && OnTime(Run(c, ops[..|ops| - 1]), ops[|ops| - 1]))
  }

  // ---------------------------------------------------------------------------
  // Gating
  // ---------------------------------------------------------------------------

  /** In Safe and Fault nothing is left of the standing order or of the ramp. */
  predicate Gated(c: Core) {
    c.state == Safe || c.state == Fault ==>
      c.cmdLeft == 0 && c.cmdRight == 0 && c.rampLeft == 0 && c.rampRight == 0
  }

  lemma {:induction false} AlwaysGated(c: Core, ops: seq<Op>)
    requires Gated(c)
    ensures Gated(Run(c, ops))
  {
    if ops != [] {
      AlwaysGated(c, ops[..|ops| - 1]);
    }
  }

  /** Which operation can make each change of state. */
  lemma TransitionCauses(c: Core, op: Op)
    ensures var next := Apply(c, op).state;
            next != c.state ==>
              match (c.state, next)
              case (Safe, Active) => op.Arm?
              case (Fallback, Active) => op.Move?
              case (Active, Fallback) => op.Tick? && op.now - c.lastSeen > 750_000
              case (Fault, Safe) => op.ClearFault? && op.cleared
              case (_, Safe) => op.Stop?
              case (_, Fault) => op.RaiseFault?
              case _ => false
  {
  }

  /** What each operation brings about, in terms of the outputs. */
  lemma CommandEffects(c: Core, op: Op)
    ensures var d := Apply(c, op);
            match op
            case Move(left, right, _) =>
              if Accepts(c, op) then d.state == Active && d.TargetLeft() == left && d.TargetRight() == right else d == c
            case Arm(_) => if c.state == Safe then d == c.(state := Active, lastTick := op.now) else d == c
            case Stop(_) =>
              if c.state == Fault then d == c
              else d.state == Safe && !d.MotorsEnabled() && d.TargetLeft() == d.TargetRight() == 0
            case RaiseFault(code, _) =>
              d.state == Fault && d.faultCode == code && !d.MotorsEnabled() && d.TargetLeft() == d.TargetRight() == 0
            case ClearFault(cleared, _) =>
              if c.state == Fault && cleared then d.state == Safe && d.faultCode == 0 && !d.MotorsEnabled() else d == c
            case Alive(now) => d == c.(lastSeen := now)
            case Tick(now) => TickEffect(c, d, now)
  {
    if op.Tick? && c.state == Fallback && 0 <= op.now - c.lastTick < MAX_GAP_US {
      RampStepExact(op.now - c.lastTick);
      DecayShrinks(c.rampLeft, RampStep(op.now - c.lastTick));
      DecayShrinks(c.rampRight, RampStep(op.now - c.lastTick));
    }
  }

  /** A tick only ever leaves Active, for want of a sign of life, and only in Fallback does it change an output. */
  predicate TickEffect(c: Core, d: Core, now: Time) {
    && d.lastTick == now && d.lastSeen == c.lastSeen && d.faultCode == c.faultCode
    && d.cmdLeft == c.cmdLeft && d.cmdRight == c.cmdRight
    && d.state == (if c.state == Active && now - c.lastSeen > 750_000 then Fallback else c.state)
    && (c.state != Fallback ==> d.TargetLeft() == c.TargetLeft() && d.TargetRight() == c.TargetRight())
    && (c.state == Fallback && 0 <= now - c.lastTick < MAX_GAP_US ==>
          && d.TargetLeft() == Shrink(c.TargetLeft(), (now - c.lastTick) / 1250)
          && d.TargetRight() == Shrink(c.TargetRight(), (now - c.lastTick) / 1250))
  }

  /** w lies between zero and v. */
  predicate NoFaster(v: int16, w: int16) {
    0 <= w <= v || v <= w <= 0
  }

  predicate Slowed(c: Core, d: Core) {
    NoFaster(c.TargetLeft(), d.TargetLeft()) && NoFaster(c.TargetRight(), d.TargetRight())
  }

  lemma SlowedStep(c: Core, op: Op)
    requires Gated(c) && OnTime(c, op) && !Accepts(c, op)
    ensures Slowed(c, Apply(c, op))
  {
    if op.Tick? && c.state == Fallback {
      RampStepExact(op.now - c.lastTick);
      DecayShrinks(c.rampLeft, RampStep(op.now - c.lastTick));
      DecayShrinks(c.rampRight, RampStep(op.now - c.lastTick));
    }
  }

  predicate NoMoveAccepted(c: Core, ops: seq<Op>) {
    forall k :: 0 <= k < |ops| ==> !Accepts(Run(c, ops[..k]), ops[k])
  }

  /** No silent acceleration: until a MOVE is accepted neither output grows or changes sign. */
  lemma {:induction false} NoSilentAcceleration(c: Core, ops: seq<Op>)
    requires Gated(c) && Timely(c, ops) && NoMoveAccepted(c, ops)
    ensures Slowed(c, Run(c, ops))
  {
    if ops != [] {
      var n := |ops| - 1;
      assert forall k :: 0 <= k < n ==> ops[..n][..k] == ops[..k];
      NoSilentAcceleration(c, ops[..n]);
      AlwaysGated(c, ops[..n]);
      SlowedStep(Run(c, ops[..n]), ops[n]);
    }
  }

  /** Past the overflow gap the ramp can accelerate: 62 days between ticks turn 1 mm/s into 101. */
  lemma OverflowAccelerates(c: Core)
    requires c.state == Fallback && c.rampLeft == 1
    ensures Apply(c, Tick(c.lastTick + (0x1_0000_0000 - 100) * 1250)).TargetLeft() == 101
  {
    var dt := (0x1_0000_0000 - 100) * 1250;
    assert Quotient(FALLBACK_DECEL * dt, SECOND_US) == 0x1_0000_0000 - 100;
  }

  // ---------------------------------------------------------------------------
  // The ramp
  // ---------------------------------------------------------------------------

  /** Operations that leave a vehicle in Fallback there. */
  predicate Quiet(ops: seq<Op>) {
    forall op :: op in ops ==> op.Alive? || op.Arm? || op.ClearFault? || op.Tick?
  }

  function Ticks(ops: seq<Op>): nat {
    if ops == [] then 0 else Ticks(ops[..|ops| - 1]) + if ops[|ops| - 1].Tick? then 1 else 0
  }

  /** The distance the ramp has covered: each tick contributes its own truncated step. */
  function Covered(c: Core, ops: seq<Op>): nat {
    if ops == [] then 0
    else
      var n := |ops| - 1;
      var before := Run(c, ops[..n]);
      Covered(c, ops[..n]) +
      if ops[n].Tick? && before.lastTick <= ops[n].now then (ops[n].now - before.lastTick) / 1250 else 0
  }

  /** Both ramps have moved by s from c's standing outputs. */
  predicate Ramped(c: Core, d: Core, s: nat) {
    d.state == Fallback && d.rampLeft == Shrink(c.rampLeft, s) && d.rampRight == Shrink(c.rampRight, s)
  }

  /** After n ticks over T microseconds both outputs have shrunk by S with 800 T / 10^6 - n < S <= 800 T / 10^6. */
  lemma RampSandwich(c: Core, ops: seq<Op>)
    requires c.state == Fallback && Timely(c, ops) && Quiet(ops)
    ensures var d, S, n := Run(c, ops), Covered(c, ops), Ticks(ops);
            var T := d.lastTick - c.lastTick;
            && d.state == Fallback
            && d.TargetLeft() == Shrink(c.TargetLeft(), S)
            && d.TargetRight() == Shrink(c.TargetRight(), S)
            && 1_000_000 * S <= 800 * T
            && (n > 0 ==> 800 * T < 1_000_000 * (S + n))
            && (n == 0 ==> T == 0)
  {
    RampCovers(c, ops);
    RampTimes(c, ops);
  }

  lemma {:induction false} RampCovers(c: Core, ops: seq<Op>)
    requires c.state == Fallback && Timely(c, ops) && Quiet(ops)
    ensures Ramped(c, Run(c, ops), Covered(c, ops))
  {
    if ops != [] {
      var n := |ops| - 1;
      RampCovers(c, ops[..n]);
      var before := Run(c, ops[..n]);
      if ops[n].Tick? {
        RampTick(c, before, ops[n].now, Covered(c, ops[..n]));
      } else {
        assert Apply(before, ops[n]) == before || Apply(before, ops[n]) == before.(lastSeen := ops[n].now);
      }
    }
  }

  /** The steps taken against the time between the ticks. */
  lemma {:induction false} RampTimes(c: Core, ops: seq<Op>)
    requires c.state == Fallback && Timely(c, ops) && Quiet(ops)
    ensures var S, n, T := Covered(c, ops), Ticks(ops), Run(c, ops).lastTick - c.lastTick;
            1250 * S <= T && (if n == 0 then T == 0 else T < 1250 * (S + n))
  {
    if ops != [] {
      var n := |ops| - 1;
      RampTimes(c, ops[..n]);
      RampCovers(c, ops[..n]);
      var before := Run(c, ops[..n]);
      if !ops[n].Tick? {
        assert Apply(before, ops[n]) == before || Apply(before, ops[n]) == before.(lastSeen := ops[n].now);
      }
    }
  }

  lemma RampTick(c: Core, before: Core, now: Time, covered: nat)
    requires Ramped(c, before, covered) && OnTime(before, Tick(now))
    ensures Ramped(c, Apply(before, Tick(now)), covered + (now - before.lastTick) / 1250)
  {
    var dt := now - before.lastTick;
    RampStepExact(dt);
    DecayShrinks(before.rampLeft, RampStep(dt));
    DecayShrinks(before.rampRight, RampStep(dt));
    ShrinkTwice(c.rampLeft, covered, dt / 1250);
    ShrinkTwice(c.rampRight, covered, dt / 1250);
  }

  /** The lost speed never exceeds 800 (mm/s)/s times the time since the ramp began. */
  lemma DecelerationBounded(c: Core, ops: seq<Op>)
    requires c.state == Fallback && Timely(c, ops) && Quiet(ops)
    ensures var d := Run(c, ops);
            var T := d.lastTick - c.lastTick;
            && 1_000_000 * (Abs(c.TargetLeft()) - Abs(d.TargetLeft())) <= 800 * T
            && 1_000_000 * (Abs(c.TargetRight()) - Abs(d.TargetRight())) <= 800 * T
  {
    RampSandwich(c, ops);
  }

  /** The ramp has stopped an output exactly once the whole 1250-microsecond parts of the gaps add up to its speed. */
  lemma StopsIff(c: Core, ops: seq<Op>)
    requires c.state == Fallback && Timely(c, ops) && Quiet(ops)
    ensures Run(c, ops).TargetLeft() == 0 <==> Covered(c, ops) >= Abs(c.TargetLeft())
    ensures Run(c, ops).TargetRight() == 0 <==> Covered(c, ops) >= Abs(c.TargetRight())
  {
    RampCovers(c, ops);
  }

  predicate GapsAtLeast(c: Core, ops: seq<Op>, gap: nat) {
    forall k :: 0 <= k < |ops| && ops[k].Tick? ==> ops[k].now - Run(c, ops[..k]).lastTick >= gap
  }

  predicate GapsBelow(c: Core, ops: seq<Op>, gap: nat) {
    forall k :: 0 <= k < |ops| && ops[k].Tick? ==> ops[k].now - Run(c, ops[..k]).lastTick < gap
  }

  lemma {:induction false} CoveredWhenSpaced(c: Core, ops: seq<Op>)
    requires c.state == Fallback && Timely(c, ops) && Quiet(ops) && GapsAtLeast(c, ops, 1250)
    ensures Covered(c, ops) >= Ticks(ops)
    ensures Run(c, ops).lastTick - c.lastTick <= 2500 * Covered(c, ops)
  {
    if ops != [] {
      var n := |ops| - 1;
      assert forall k :: 0 <= k < n ==> ops[..n][..k] == ops[..k];
      CoveredWhenSpaced(c, ops[..n]);
      RampSandwich(c, ops[..n]);
      if ops[n].Tick? {
        assert ops[n].now - Run(c, ops[..n]).lastTick >= 1250;
      }
    }
  }

  /** Ticks at least 1250 microseconds apart stop a speed v within v ticks, and within 2.5 v milliseconds. */
  lemma StopsWhenSpaced(c: Core, ops: seq<Op>)
    requires c.state == Fallback && Timely(c, ops) && Quiet(ops) && GapsAtLeast(c, ops, 1250)
    ensures var v := Abs(c.TargetLeft());
            Ticks(ops) >= v || Run(c, ops).lastTick - c.lastTick >= 2500 * v
            ==> Run(c, ops).TargetLeft() == 0
    ensures var v := Abs(c.TargetRight());
            Ticks(ops) >= v || Run(c, ops).lastTick - c.lastTick >= 2500 * v
            ==> Run(c, ops).TargetRight() == 0
  {
    CoveredWhenSpaced(c, ops);
    RampSandwich(c, ops);
  }

  lemma {:induction false} NothingCovered(c: Core, ops: seq<Op>)
    requires GapsBelow(c, ops, 1250)
    ensures Covered(c, ops) == 0
  {
    if ops != [] {
      var n := |ops| - 1;
      assert forall k :: 0 <= k < n ==> ops[..n][..k] == ops[..k];
      NothingCovered(c, ops[..n]);
    }
  }

  /** Ticks closer together than that never slow the vehicle, however long they go on. */
  lemma StallsWhenFast(c: Core, ops: seq<Op>)
    requires c.state == Fallback && Timely(c, ops) && Quiet(ops) && GapsBelow(c, ops, 1250)
    ensures Run(c, ops).TargetLeft() == c.TargetLeft() && Run(c, ops).TargetRight() == c.TargetRight()
  {
    NothingCovered(c, ops);
    RampSandwich(c, ops);
  }

  // ---------------------------------------------------------------------------
  // Liveness
  // ---------------------------------------------------------------------------

  /** The test that drives the link indicator and the one that falls back differ at one instant only. */
  lemma LivenessTestsAgreeIff(c: Core, now: Time)
    requires c.state == Active
    ensures (c.CommanderAlive(now) <==> Apply(c, Tick(now)).state == Active) <==>
            now - c.lastSeen != 750_000
    ensures c.CommanderAlive(now) ==> Apply(c, Tick(now)).state == Active
  {
  }

  /** Falling back starts from the standing order, and a vehicle left Active has been heard in time. */
  lemma TickWhileActive(c: Core, now: Time)
    requires c.state == Active
    ensures var d := Apply(c, Tick(now));
            && (d.state == Active <==> now - c.lastSeen <= 750_000)
            && d.state in {Active, Fallback}
            && d.TargetLeft() == c.TargetLeft() == c.cmdLeft && d.TargetRight() == c.TargetRight() == c.cmdRight
  {
  }

  predicate Silent(ops: seq<Op>) {
    forall op :: op in ops ==> !op.Alive?
  }

  lemma {:induction false} SilentKeepsLastSeen(c: Core, ops: seq<Op>)
    requires Silent(ops)
    ensures Run(c, ops).lastSeen == c.lastSeen
  {
    if ops != [] {
      SilentKeepsLastSeen(c, ops[..|ops| - 1]);
    }
  }

  /** With no frame heard since boot, the commander passes for alive exactly during the first 750 ms. */
  lemma AliveFromBootIff(ops: seq<Op>, now: Time)
    requires Silent(ops)
    ensures Run(INITIAL, ops).CommanderAlive(now) <==> now < 750_000
  {
    SilentKeepsLastSeen(INITIAL, ops);
  }

  /** However the vehicle is driven, a tick after 750 ms of silence leaves it outside Active. */
  lemma SilenceEndsActive(c: Core, ops: seq<Op>, now: Time)
    requires Silent(ops) && now - c.lastSeen > LIVENESS_TIMEOUT_US
    ensures Run(c, ops + [Tick(now)]).state != Active
  {
    SilentKeepsLastSeen(c, ops);
    assert (ops + [Tick(now)])[..|ops|] == ops;
  }

  // ---------------------------------------------------------------------------
  // From silence to standstill
  // ---------------------------------------------------------------------------

  /** No sign of life and no order: ticks, and whatever arming, stopping and faults there may be. */
  predicate Forsaken(ops: seq<Op>) {
    forall op :: op in ops ==> !op.Alive? && !op.Move?
  }

  /** Every tick comes at least 1250 microseconds after the last one, and at most so many. */
  predicate Paced(c: Core, ops: seq<Op>, gap: nat) {
    forall k :: 0 <= k < |ops| && ops[k].Tick? ==> PacedAt(Run(c, ops[..k]), ops[k], gap)
  }

  predicate PacedAt(c: Core, op: Op, gap: nat) {
    1250 <= op.now - c.lastTick <= gap
  }

  /** How far a forsaken vehicle has got: still waiting, slowing down since the deadline, or standing still. */
  predicate Dying(c: Core, d: Core, deadline: nat, s: nat) {
    && Gated(d) && d.lastSeen == c.lastSeen
    && match d.state
       case Active =>
         && NoFaster(c.TargetLeft(), d.cmdLeft) && NoFaster(c.TargetRight(), d.cmdRight)
         && (Stopped(d) || d.lastTick <= c.lastSeen + LIVENESS_TIMEOUT_US)
       case Fallback =>
         && NoFaster(Shrink(c.TargetLeft(), s), d.rampLeft) && NoFaster(Shrink(c.TargetRight(), s), d.rampRight)
         && (Stopped(d) || d.lastTick <= deadline + 2500 * s)
       case _ => true
  }

  predicate Stopped(c: Core) {
    c.TargetLeft() == 0 && c.TargetRight() == 0
  }

  lemma ShrinkNoFaster(v: int16, w: int16, s: nat, t: nat)
    requires NoFaster(Shrink(v, s), w)
    ensures NoFaster(Shrink(v, s + t), Shrink(w, t))
  {
  }

  lemma HalfCovered(gap: nat)
    requires gap >= 1250
    ensures gap <= 2500 * (gap / 1250)
  {
  }

  lemma DyingRampTick(c: Core, d: Core, now: Time, deadline: nat, s: nat)
    requires Dying(c, d, deadline, s) && d.state == Fallback && OnTime(d, Tick(now)) && now - d.lastTick >= 1250
    ensures Dying(c, Apply(d, Tick(now)), deadline, s + (now - d.lastTick) / 1250)
  {
    var more := (now - d.lastTick) / 1250;
    RampTick(d, d, now, 0);
    HalfCovered(now - d.lastTick);
    ShrinkNoFaster(c.TargetLeft(), d.rampLeft, s, more);
    ShrinkNoFaster(c.TargetRight(), d.rampRight, s, more);
  }

  lemma DyingActiveTick(c: Core, d: Core, now: Time, gap: nat)
    requires Dying(c, d, c.lastSeen + LIVENESS_TIMEOUT_US + gap, 0) && d.state == Active
    requires OnTime(d, Tick(now)) && PacedAt(d, Tick(now), gap)
    ensures Dying(c, Apply(d, Tick(now)), c.lastSeen + LIVENESS_TIMEOUT_US + gap, 0)
  {
    TickWhileActive(d, now);
  }

  lemma DyingTick(c: Core, d: Core, now: Time, gap: nat, s: nat) returns (t: nat)
    requires Dying(c, d, c.lastSeen + LIVENESS_TIMEOUT_US + gap, s) && OnTime(d, Tick(now))
    requires PacedAt(d, Tick(now), gap) && (d.state != Fallback ==> s == 0)
    ensures Dying(c, Apply(d, Tick(now)), c.lastSeen + LIVENESS_TIMEOUT_US + gap, t)
    ensures Apply(d, Tick(now)).state != Fallback ==> t == 0
  {
    t := s;
    if d.state == Fallback {
      DyingRampTick(c, d, now, c.lastSeen + LIVENESS_TIMEOUT_US + gap, s);
      t := s + (now - d.lastTick) / 1250;
    } else if d.state == Active {
      DyingActiveTick(c, d, now, gap);
    }
  }

  lemma DyingOther(c: Core, d: Core, op: Op, deadline: nat, s: nat) returns (t: nat)
    requires Dying(c, d, deadline, s) && !op.Tick? && !op.Alive? && !op.Move?
    requires d.state != Fallback ==> s == 0
    ensures Dying(c, Apply(d, op), deadline, t)
    ensures Apply(d, op).state != Fallback ==> t == 0
  {
    t := if Apply(d, op).state == Fallback then s else 0;
  }

  lemma {:induction false} DyingRun(c: Core, ops: seq<Op>, gap: nat) returns (s: nat)
    requires Gated(c) && c.lastTick <= c.lastSeen + LIVENESS_TIMEOUT_US
    requires Timely(c, ops) && Forsaken(ops) && Paced(c, ops, gap)
    ensures Dying(c, Run(c, ops), c.lastSeen + LIVENESS_TIMEOUT_US + gap, s)
    ensures Run(c, ops).state != Fallback ==> s == 0
  {
    if ops == [] {
      return 0;
    }
    var n := |ops| - 1;
    assert forall k :: 0 <= k < n ==> ops[..n][..k] == ops[..k];
    s := DyingRun(c, ops[..n], gap);
    var d := Run(c, ops[..n]);
    assert ops[n] in ops;
    if ops[n].Tick? {
      assert PacedAt(d, ops[n], gap);
      s := DyingTick(c, d, ops[n].now, gap, s);
    } else {
      s := DyingOther(c, d, ops[n], c.lastSeen + LIVENESS_TIMEOUT_US + gap, s);
    }
  }

  /**
   * Without a further sign of life a vehicle moving at up to v stands still from the first tick on that comes
   * 750 ms, one tick gap and 2.5 v milliseconds after the last one, if ticks are at least 1250 microseconds apart.
   */
  lemma SilenceStops(c: Core, ops: seq<Op>, gap: nat, v: nat)
    requires Gated(c) && c.lastTick <= c.lastSeen + LIVENESS_TIMEOUT_US
    requires Timely(c, ops) && Forsaken(ops) && Paced(c, ops, gap)
    requires Abs(c.TargetLeft()) <= v && Abs(c.TargetRight()) <= v
    ensures Run(c, ops).lastTick > c.lastSeen + LIVENESS_TIMEOUT_US + gap + 2500 * v ==> Stopped(Run(c, ops))
  {
    var s := DyingRun(c, ops, gap);
  }

  // ---------------------------------------------------------------------------
  // The object
  // ---------------------------------------------------------------------------

  class TacticalCore {
    var state: State
    var cmdLeft: int16
    var cmdRight: int16
    var rampLeft: int16
    var rampRight: int16
    var faultCode: nat
    var lastSeen: Time
    var lastTick: Time

    function Value(): Core
      reads this
    {
      Core(state, cmdLeft, cmdRight, rampLeft, rampRight, faultCode, lastSeen, lastTick)
    }

    constructor ()
      ensures Value() == INITIAL
    {
      state := Safe;
      cmdLeft, cmdRight, rampLeft, rampRight := 0, 0, 0, 0;
      faultCode, lastSeen, lastTick := 0, 0, 0;
    }

    method NoteCommanderAlive(now: Time)
      modifies this
      ensures Value() == Apply(old(Value()), Alive(now))
    {
      lastSeen := now;
    }

    method CmdArm(now: Time)
      modifies this
      ensures Value() == Apply(old(Value()), Arm(now))
    {
      if state == Safe {
        EnterState(Active, now);
      }
    }

    method CmdStop(now: Time)
      modifies this
      ensures Value() == Apply(old(Value()), Stop(now))
    {
      if state != Fault {
        EnterState(Safe, now);
      }
    }

    method CmdMove(left: int16, right: int16, now: Time) returns (accepted: bool)
      modifies this
      ensures accepted == Accepts(old(Value()), Move(left, right, now))
      ensures Value() == Apply(old(Value()), Move(left, right, now))
    {
      if state == Fallback {
        EnterState(Active, now);
      }
      if state != Active {
        return false;
      }
      cmdLeft := left;
      cmdRight := right;
      return true;
    }

    method Raise(code: nat, now: Time)
      modifies this
      ensures Value() == Apply(old(Value()), RaiseFault(code, now))
    {
      faultCode := code;
      EnterState(Fault, now);
    }

    method Clear(conditionCleared: bool, now: Time) returns (cleared: bool)
      modifies this
      ensures cleared == (old(state) == Fault && conditionCleared)
      ensures Value() == Apply(old(Value()), ClearFault(conditionCleared, now))
    {
      if state == Fault && conditionCleared {
        faultCode := 0;
        EnterState(Safe, now);
        return true;
      }
      return false;
    }

    method TickAt(now: Time)
      modifies this
      ensures Value() == Apply(old(Value()), Tick(now))
    {
      if state == Active && now - lastSeen > LIVENESS_TIMEOUT_US {
        EnterState(Fallback, now);
      } else if state == Fallback {
        RampTowardZero(now);
      }
      lastTick := now;
    }

    method EnterState(next: State, now: Time)
      modifies this
      ensures Value() == Enter(old(Value()), next, now)
    {
      if next == state {
        return;
      }
      if next == Fallback {
        rampLeft := cmdLeft;
        rampRight := cmdRight;
      }
      if next == Safe || next == Fault {
        cmdLeft, cmdRight, rampLeft, rampRight := 0, 0, 0, 0;
      }
      state := next;
      lastTick := now;
    }

    method RampTowardZero(now: Time)
      modifies this`rampLeft, this`rampRight
      ensures rampLeft == Decay(old(rampLeft), RampStep(now - lastTick))
      ensures rampRight == Decay(old(rampRight), RampStep(now - lastTick))
    {
      var step := RampStep(now - lastTick);
      rampLeft := Decay(rampLeft, step);
      rampRight := Decay(rampRight, step);
    }
  }
}

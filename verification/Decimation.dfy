/** The base's telemetry decimator: which of the frames it receives are forwarded to the laptop. */
module Decimation {
  import opened Counters

  const SECOND_US := 1_000_000

  /** An interval of zero forwards every frame. */
  datatype Decimator = Decimator(on: bool, intervalMs: nat, next: Time)

  const NEW_DECIMATOR := Decimator(false, 0, 0)

  /** What the `tlm` command asks for; a rate takes effect at once. */
  datatype Setting = Off | EveryFrame | Hertz(hz: nat, now: Time)

  function Set(d: Decimator, s: Setting): Decimator {
    match s
    case Off => d.(on := false)
    case EveryFrame => d.(on := true, intervalMs := 0)
    case Hertz(hz, now) => Decimator(true, if hz != 0 then 1000 / hz else 0, now)
  }

  /** The two clock readings taken for one frame. */
  datatype Arrival = Arrival(now: Time, later: Time)

  predicate Due(d: Decimator, a: Arrival) {
    d.on && (d.intervalMs == 0 || a.now >= d.next)
  }

  function After(d: Decimator, a: Arrival): Decimator {
    if d.on && d.intervalMs != 0 && a.now >= d.next then d.(next := a.later + 1000 * d.intervalMs) else d
  }

  datatype Event = Frame(arrival: Arrival) | Setting(setting: Setting)

  function AfterEvent(d: Decimator, e: Event): Decimator {
    match e
    case Frame(a) => After(d, a)
    case Setting(s) => Set(d, s)
  }

  function AfterAll(d: Decimator, events: seq<Event>): Decimator {
    if events == [] then d
    else AfterEvent(AfterAll(d, events[..|events| - 1]), events[|events| - 1])
  }

  function Settings(events: seq<Event>): nat {
    if events == [] then 0
    else Settings(events[..|events| - 1]) + if events[|events| - 1].Setting? then 1 else 0
  }

  /** A frame forwarded: when, and after how many settings. */
  datatype Mark = Mark(at: Time, settings: nat)

  function Forwarded(d: Decimator, events: seq<Event>): seq<Mark> {
    if events == [] then []
    else
      var n := |events| - 1;
      Forwarded(d, events[..n]) + Forward(AfterAll(d, events[..n]), Settings(events[..n]), events[n])
  }

  function Forward(d: Decimator, settings: nat, e: Event): seq<Mark> {
    if e.Frame? && Due(d, e.arrival) then [Mark(e.arrival.now, settings)] else []
  }

  lemma OneMore(d: Decimator, events: seq<Event>, e: Event)
    ensures AfterAll(d, events + [e]) == AfterEvent(AfterAll(d, events), e)
    ensures Forwarded(d, events + [e]) == Forwarded(d, events) + Forward(AfterAll(d, events), Settings(events), e)
    ensures Settings(events + [e]) == Settings(events) + if e.Setting? then 1 else 0
  {
    assert (events + [e])[..|events|] == events;
  }

  /** The last clock reading taken. */
  function Latest(events: seq<Event>): Time {
    if events == [] then 0 else LatestAfter(Latest(events[..|events| - 1]), events[|events| - 1])
  }

  function LatestAfter(t: Time, e: Event): Time {
    match e
    case Frame(a) => a.later
    case Setting(Hertz(_, now)) => now
    case _ => t
  }

  predicate OnClock(t: Time, e: Event) {
    match e
    case Frame(a) => t <= a.now <= a.later
    case Setting(Hertz(_, now)) => t <= now
    case _ => true
  }

  /** The clock never runs backwards. */
  predicate Clocked(events: seq<Event>) {
    events == [] ||
    (Clocked(events[..|events| - 1]) && OnClock(Latest(events[..|events| - 1]), events[|events| - 1]))
  }

  /** The only settings are one rate, given once or more often, and off. */
  predicate OneRate(hz: nat, events: seq<Event>) {
    forall i :: 0 <= i < |events| && events[i].Setting? ==> RateOrOff(hz, events[i].setting)
  }

  predicate RateOrOff(hz: nat, s: Setting) {
    s.Off? || (s.Hertz? && s.hz == hz)
  }

  /** On at that rate, or off. */
  predicate Rated(hz: nat, d: Decimator)
    requires hz > 0
  {
    d.on ==> d.intervalMs == 1000 / hz
  }

  // ---------------------------------------------------------------------------
  // What each setting does
  // ---------------------------------------------------------------------------

  predicate FramesOnly(events: seq<Event>) {
    forall e :: e in events ==> e.Frame?
  }

  /** The frames forwarded, whole. */
  function Passed(d: Decimator, events: seq<Event>): seq<Arrival> {
    if events == [] then []
    else
      var n := |events| - 1;
      Passed(d, events[..n]) + ForwardedBy(AfterAll(d, events[..n]), events[n])
  }

  function Frames(events: seq<Event>): seq<Arrival> {
    if events == [] then []
    else
      Frames(events[..|events| - 1]) + if events[|events| - 1].Frame? then [events[|events| - 1].arrival] else []
  }

  lemma {:induction false} MarksOfPassed(d: Decimator, events: seq<Event>)
    ensures |Forwarded(d, events)| == |Passed(d, events)|
    ensures forall i :: 0 <= i < |Passed(d, events)| ==> Forwarded(d, events)[i].at == Passed(d, events)[i].now
  {
    if events != [] {
      MarksOfPassed(d, events[..|events| - 1]);
    }
  }

  /** Off silences telemetry, whatever was set before. */
  lemma {:induction false} OffSilences(d: Decimator, events: seq<Event>)
    requires FramesOnly(events)
    ensures Passed(Set(d, Off), events) == [] && AfterAll(Set(d, Off), events) == Set(d, Off)
  {
    if events != [] {
      OffSilences(d, events[..|events| - 1]);
    }
  }

  /** On forwards every frame, and so does a rate of zero. */
  lemma {:induction false} EveryFrameForwards(d: Decimator, s: Setting, events: seq<Event>)
    requires FramesOnly(events) && (s.EveryFrame? || (s.Hertz? && s.hz == 0))
    ensures Passed(Set(d, s), events) == Frames(events) && AfterAll(Set(d, s), events) == Set(d, s)
  {
    if events != [] {
      EveryFrameForwards(d, s, events[..|events| - 1]);
    }
  }

  /** The time from which the next frame is forwarded: an interval after the last one was, or that of the setting. */
  function NextDue(hz: nat, start: Time, passed: seq<Arrival>): Time
    requires hz > 0
  {
    if passed == [] then start else passed[|passed| - 1].later + 1000 * (1000 / hz)
  }

  function ForwardedBy(d: Decimator, e: Event): seq<Arrival> {
    if e.Frame? && Due(d, e.arrival) then [e.arrival] else []
  }

  /** At the rate, having forwarded those frames. */
  predicate AtRate(d: Decimator, hz: nat, start: Time, passed: seq<Arrival>)
    requires hz > 0
  {
    d == Decimator(true, 1000 / hz, NextDue(hz, start, passed))
  }

  lemma RateStep(d: Decimator, hz: nat, start: Time, passed: seq<Arrival>, a: Arrival)
    requires 1 <= hz <= 1000 && AtRate(d, hz, start, passed)
    ensures AtRate(After(d, a), hz, start, passed + ForwardedBy(d, Frame(a)))
    ensures ForwardedBy(d, Frame(a)) == if a.now >= NextDue(hz, start, passed) then [a] else []
  {
    PositiveInterval(hz);
    assert passed + [] == passed;
  }

  lemma {:induction false} RateRuns(d: Decimator, hz: nat, start: Time, events: seq<Event>)
    requires 1 <= hz <= 1000 && FramesOnly(events)
    ensures var rated := Set(d, Hertz(hz, start));
            AtRate(AfterAll(rated, events), hz, start, Passed(rated, events))
  {
    if events != [] {
      var n := |events| - 1;
      var rated := Set(d, Hertz(hz, start));
      assert events[n] in events;
      RateRuns(d, hz, start, events[..n]);
      RateStep(AfterAll(rated, events[..n]), hz, start, Passed(rated, events[..n]), events[n].arrival);
    }
  }

  /** A rate forwards a frame exactly if it comes no earlier than that. */
  lemma RateForwards(d: Decimator, hz: nat, start: Time, events: seq<Event>, a: Arrival)
    requires 1 <= hz <= 1000 && FramesOnly(events)
    ensures var rated, passed := Set(d, Hertz(hz, start)), Passed(Set(d, Hertz(hz, start)), events);
            Passed(rated, events + [Frame(a)]) == passed + if a.now >= NextDue(hz, start, passed) then [a] else []
  {
    var rated := Set(d, Hertz(hz, start));
    RateRuns(d, hz, start, events);
    RateStep(AfterAll(rated, events), hz, start, Passed(rated, events), a);
    assert (events + [Frame(a)])[..|events|] == events;
  }

  // ---------------------------------------------------------------------------
  // Spacing
  // ---------------------------------------------------------------------------

  function Gap(hz: nat): nat
    requires hz > 0
  {
    1000 * (1000 / hz)
  }

  /** Consecutive frames are in order, and a gap apart unless a setting comes between them. */
  predicate Apart(a: Mark, b: Mark, gap: nat) {
    a.settings <= b.settings && a.at + (if a.settings == b.settings then gap else 0) <= b.at
  }

  ghost predicate Spaced(f: seq<Mark>, gap: nat) {
    forall i :: 0 < i < |f| ==> Apart(f[i - 1], f[i], gap)
  }

  /** What the frame forwarded last still means for the next one. */
  predicate Pending(f: seq<Mark>, d: Decimator, settings: nat, latest: Time, gap: nat) {
    f != [] ==>
      var m := f[|f| - 1];
      m.at <= latest && m.settings <= settings && (m.settings == settings ==> m.at + gap <= d.next)
  }

  lemma PendingStep(hz: nat, d: Decimator, f: seq<Mark>, settings: nat, latest: Time, e: Event)
    requires 1 <= hz <= 1000 && Rated(hz, d) && Pending(f, d, settings, latest, Gap(hz))
    requires OnClock(latest, e) && (e.Setting? ==> RateOrOff(hz, e.setting))
    ensures Rated(hz, AfterEvent(d, e))
    ensures var settings' := settings + if e.Setting? then 1 else 0;
            Pending(f + Forward(d, settings, e), AfterEvent(d, e), settings', LatestAfter(latest, e), Gap(hz))
    ensures f != [] && Forward(d, settings, e) != [] ==>
              Apart(f[|f| - 1], Forward(d, settings, e)[0], Gap(hz))
  {
    PositiveInterval(hz);
  }

  lemma PositiveInterval(hz: nat)
    requires 1 <= hz <= 1000
    ensures 1000 / hz >= 1
  {
  }

  lemma SpacedAppend(f: seq<Mark>, m: Mark, gap: nat)
    requires Spaced(f, gap) && (f != [] ==> Apart(f[|f| - 1], m, gap))
    ensures Spaced(f + [m], gap)
  {
  }

  /** Frames forwarded under one rate are an interval apart, except where the rate was set anew. */
  lemma {:induction false} NextAfterLast(hz: nat, d: Decimator, events: seq<Event>)
    requires 1 <= hz <= 1000 && Rated(hz, d) && OneRate(hz, events) && Clocked(events)
    ensures Rated(hz, AfterAll(d, events)) && Spaced(Forwarded(d, events), Gap(hz))
    ensures Pending(Forwarded(d, events), AfterAll(d, events), Settings(events), Latest(events), Gap(hz))
  {
    if events != [] {
      var before, e := events[..|events| - 1], events[|events| - 1];
      NextAfterLast(hz, d, before);
      var f := Forwarded(d, before);
      PendingStep(hz, AfterAll(d, before), f, Settings(before), Latest(before), e);
      var more := Forward(AfterAll(d, before), Settings(before), e);
      if more != [] {
        SpacedAppend(f, more[0], Gap(hz));
      }
    }
  }

  /** From the i-th frame to the j-th: one interval for each step that no setting accounts for. */
  lemma {:induction false} Spread(f: seq<Mark>, gap: nat, i: nat, j: nat)
    requires Spaced(f, gap) && i <= j < |f|
    ensures f[i].settings <= f[j].settings && f[i].at <= f[j].at
    ensures (j - i - (f[j].settings - f[i].settings)) * gap <= f[j].at - f[i].at
    decreases j
  {
    if i < j {
      Spread(f, gap, i, j - 1);
      assert Apart(f[j - 1], f[j], gap);
      var steps := j - 1 - i - (f[j - 1].settings - f[i].settings);
      var more := 1 - (f[j].settings - f[j - 1].settings);
      assert (steps + more) * gap == steps * gap + more * gap;
      if more <= 0 {
        MulLe(more, 0, gap);
      }
    }
  }

  /** n forwarded frames span at least n - 1 intervals, less one for each setting between them. */
  lemma ForwardedSpread(hz: nat, d: Decimator, events: seq<Event>, i: nat, j: nat)
    requires 1 <= hz <= 1000 && Rated(hz, d) && OneRate(hz, events) && Clocked(events)
    requires i <= j < |Forwarded(d, events)|
    ensures var f := Forwarded(d, events);
            && f[i].settings <= f[j].settings && f[i].at <= f[j].at
            && (j - i - (f[j].settings - f[i].settings)) * Gap(hz) <= f[j].at - f[i].at
  {
    NextAfterLast(hz, d, events);
    Spread(Forwarded(d, events), Gap(hz), i, j);
  }

  // ---------------------------------------------------------------------------
  // The rate promised
  // ---------------------------------------------------------------------------

  /** The frames i to j, if less than a second apart with at most so many settings between, are within the limit. */
  predicate Within(f: seq<Mark>, i: nat, j: nat, resets: nat, limit: nat)
    requires i <= j < |f|
  {
    f[j].at - f[i].at < SECOND_US && f[j].settings - f[i].settings <= resets ==> j - i + 1 <= limit
  }

  /**
   * On no schedule are more than limit consecutive frames forwarded in a half-open second during which the rate
   * was set anew at most so many times.
   */
  ghost predicate AtMostPerSecond(hz: nat, resets: nat, limit: nat) {
    forall events: seq<Event>, i: nat, j: nat ::
      OneRate(hz, events) && Clocked(events) && i <= j < |Forwarded(NEW_DECIMATOR, events)| ==>
        Within(Forwarded(NEW_DECIMATOR, events), i, j, resets, limit)
  }

  /** The least limit under one setting: 1000 divided by the interval in milliseconds, rounded up. */
  function Limit(hz: nat): nat
    requires 1 <= hz <= 1000
  {
    (1000 + 1000 / hz - 1) / (1000 / hz)
  }

  lemma WithinLimit(hz: nat, d: Decimator, events: seq<Event>, i: nat, j: nat, resets: nat)
    requires 1 <= hz <= 1000 && Rated(hz, d) && OneRate(hz, events) && Clocked(events)
    requires i <= j < |Forwarded(d, events)|
    ensures Within(Forwarded(d, events), i, j, resets, Limit(hz) + resets)
  {
    var f := Forwarded(d, events);
    ForwardedSpread(hz, d, events, i, j);
    if f[j].at - f[i].at < SECOND_US && f[j].settings - f[i].settings <= resets {
      BelowLimit(j - i - (f[j].settings - f[i].settings), 1000 / hz);
    }
  }

  /** n intervals of q milliseconds shorter than a second. */
  lemma BelowLimit(n: int, q: nat)
    requires 1 <= q <= 1000 && n * (1000 * q) < SECOND_US
    ensures n + 1 <= (1000 + q - 1) / q
  {
    assert n * (1000 * q) == 1000 * (n * q);
    var m := (1000 + q - 1) / q;
    assert m * q >= 1000 by { DivMod(1000 + q - 1, q); }
    if n >= m {
      MulLe(m, n, q);
    }
  }

  lemma DivMod(a: nat, q: nat)
    requires q > 0
    ensures a - q < a / q * q <= a
  {
  }

  lemma MulLe(a: int, b: int, q: nat)
    requires a <= b
    ensures a * q <= b * q
  {
  }

  // ---------------------------------------------------------------------------
  // The schedule that reaches the limit
  // ---------------------------------------------------------------------------

  /** The rate, then so many times a frame and the rate again, all at once. */
  function Restarts(hz: nat, n: nat): seq<Event> {
    if n == 0 then [Setting(Hertz(hz, 0))]
    else Restarts(hz, n - 1) + [Frame(Arrival(0, 0))] + [Setting(Hertz(hz, 0))]
  }

  /** And then frames arriving exactly one interval apart. */
  function Steady(hz: nat, resets: nat, n: nat): seq<Event>
    requires hz > 0
  {
    if n == 0 then Restarts(hz, resets)
    else Steady(hz, resets, n - 1) + [Frame(Arrival((n - 1) * Gap(hz), (n - 1) * Gap(hz)))]
  }

  ghost predicate Scheduled(hz: nat, events: seq<Event>, latest: Time) {
    OneRate(hz, events) && Clocked(events) && Latest(events) <= latest
  }

  lemma ScheduleMore(hz: nat, events: seq<Event>, e: Event, latest: Time)
    requires Scheduled(hz, events, latest) && OnClock(latest, e) && (e.Setting? ==> RateOrOff(hz, e.setting))
    ensures Scheduled(hz, events + [e], LatestAfter(latest, e))
  {
    assert (events + [e])[..|events|] == events;
  }

  lemma {:induction false} RestartsRun(hz: nat, n: nat)
    requires 1 <= hz <= 1000
    ensures Scheduled(hz, Restarts(hz, n), 0)
    ensures AfterAll(NEW_DECIMATOR, Restarts(hz, n)) == Decimator(true, 1000 / hz, 0)
    ensures Settings(Restarts(hz, n)) == n + 1 && |Forwarded(NEW_DECIMATOR, Restarts(hz, n))| == n
    ensures n > 0 ==> Forwarded(NEW_DECIMATOR, Restarts(hz, n))[0] == Mark(0, 1)
  {
    var s := Setting(Hertz(hz, 0));
    if n == 0 {
      assert [] + [s] == Restarts(hz, 0);
      ScheduleMore(hz, [], s, 0);
      OneMore(NEW_DECIMATOR, [], s);
    } else {
      RestartsRun(hz, n - 1);
      Restart(hz, Restarts(hz, n - 1));
    }
  }

  lemma Restart(hz: nat, before: seq<Event>)
    requires 1 <= hz <= 1000 && Scheduled(hz, before, 0)
    requires AfterAll(NEW_DECIMATOR, before) == Decimator(true, 1000 / hz, 0)
    ensures var more := before + [Frame(Arrival(0, 0))] + [Setting(Hertz(hz, 0))];
            && Scheduled(hz, more, 0) && AfterAll(NEW_DECIMATOR, more) == Decimator(true, 1000 / hz, 0)
            && Settings(more) == Settings(before) + 1
            && Forwarded(NEW_DECIMATOR, more) == Forwarded(NEW_DECIMATOR, before) + [Mark(0, Settings(before))]
  {
    var e, s := Frame(Arrival(0, 0)), Setting(Hertz(hz, 0));
    ScheduleMore(hz, before, e, 0);
    ScheduleMore(hz, before + [e], s, 0);
    OneMore(NEW_DECIMATOR, before, e);
    OneMore(NEW_DECIMATOR, before + [e], s);
    var f := Forwarded(NEW_DECIMATOR, before + [e]);
    assert f + [] == f;
  }

  /** Every one of the frames is forwarded. */
  lemma {:induction false} SteadyRun(hz: nat, resets: nat, n: nat)
    requires 1 <= hz <= 1000
    ensures Scheduled(hz, Steady(hz, resets, n), n * Gap(hz))
    ensures AfterAll(NEW_DECIMATOR, Steady(hz, resets, n)) == Decimator(true, 1000 / hz, n * Gap(hz))
    ensures var f := Forwarded(NEW_DECIMATOR, Steady(hz, resets, n));
            && Settings(Steady(hz, resets, n)) == resets + 1 && |f| == resets + n
            && (resets + n > 0 ==> f[0] == Mark(0, 1))
            && (n > 0 ==> f[resets + n - 1] == Mark((n - 1) * Gap(hz), resets + 1))
  {
    PositiveInterval(hz);
    if n == 0 {
      RestartsRun(hz, resets);
    } else {
      SteadyRun(hz, resets, n - 1);
      var t := (n - 1) * Gap(hz);
      NextMultiple(n - 1, Gap(hz));
      SteadyStep(hz, Steady(hz, resets, n - 1), t);
    }
  }

  lemma NextMultiple(n: nat, gap: nat)
    ensures (n + 1) * gap == n * gap + gap
  {
  }

  lemma SteadyStep(hz: nat, before: seq<Event>, t: Time)
    requires 1 <= hz <= 1000 && Scheduled(hz, before, t)
    requires AfterAll(NEW_DECIMATOR, before) == Decimator(true, 1000 / hz, t)
    ensures var e := Frame(Arrival(t, t));
            && Scheduled(hz, before + [e], t + Gap(hz))
            && AfterAll(NEW_DECIMATOR, before + [e]) == Decimator(true, 1000 / hz, t + Gap(hz))
            && Settings(before + [e]) == Settings(before)
            && Forwarded(NEW_DECIMATOR, before + [e]) == Forwarded(NEW_DECIMATOR, before) + [Mark(t, Settings(before))]
  {
    PositiveInterval(hz);
    ScheduleMore(hz, before, Frame(Arrival(t, t)), t);
    OneMore(NEW_DECIMATOR, before, Frame(Arrival(t, t)));
  }

  /** The least limit there is: one for each setting anew, beyond the limit of a single one. */
  lemma LimitIsLeast(hz: nat, resets: nat, limit: nat)
    requires 1 <= hz <= 1000
    ensures AtMostPerSecond(hz, resets, limit) <==> limit >= Limit(hz) + resets
  {
    if limit >= Limit(hz) + resets {
      forall events: seq<Event>, i: nat, j: nat |
        OneRate(hz, events) && Clocked(events) && i <= j < |Forwarded(NEW_DECIMATOR, events)|
        ensures Within(Forwarded(NEW_DECIMATOR, events), i, j, resets, limit)
      {
        WithinLimit(hz, NEW_DECIMATOR, events, i, j, resets);
      }
    } else {
      var events, j := LimitBroken(hz, resets, limit);
      assert !Within(Forwarded(NEW_DECIMATOR, events), 0, j, resets, limit);
    }
  }

  /** A schedule that breaks any smaller limit. */
  lemma LimitBroken(hz: nat, resets: nat, limit: nat) returns (events: seq<Event>, j: nat)
    requires 1 <= hz <= 1000 && limit < Limit(hz) + resets
    ensures OneRate(hz, events) && Clocked(events) && j < |Forwarded(NEW_DECIMATOR, events)|
    ensures !Within(Forwarded(NEW_DECIMATOR, events), 0, j, resets, limit)
  {
    LimitReached(hz, resets);
    events := Steady(hz, resets, Limit(hz));
    j := resets + Limit(hz) - 1;
  }

  lemma LimitReached(hz: nat, resets: nat)
    requires 1 <= hz <= 1000
    ensures var events, n := Steady(hz, resets, Limit(hz)), Limit(hz) + resets;
            var f := Forwarded(NEW_DECIMATOR, events);
            && OneRate(hz, events) && Clocked(events) && |f| == n > resets
            && f[n - 1].at - f[0].at < SECOND_US && f[n - 1].settings - f[0].settings == resets
  {
    LimitSpan(hz);
    SteadyRun(hz, resets, Limit(hz));
  }

  lemma LimitSpan(hz: nat)
    requires 1 <= hz <= 1000
    ensures Limit(hz) > 0 && (Limit(hz) - 1) * Gap(hz) < SECOND_US
  {
    PositiveInterval(hz);
    JustUnder(1000 / hz);
  }

  lemma PositiveFactor(m: nat, q: nat)
    requires m * q > 0
    ensures m > 0
  {
  }

  lemma JustUnder(q: nat)
    requires 1 <= q <= 1000
    ensures var m := (1000 + q - 1) / q;
            m > 0 && (m - 1) * (1000 * q) < SECOND_US
  {
    var m := (1000 + q - 1) / q;
    DivMod(1000 + q - 1, q);
    PositiveFactor(m, q);
    assert (m - 1) * q == m * q - q;
    assert (m - 1) * (1000 * q) == 1000 * ((m - 1) * q);
  }

  lemma LimitIsRateIff(hz: nat)
    requires 1 <= hz <= 1000
    ensures Limit(hz) <= hz <==> 1000 % hz == 0
  {
    var q := 1000 / hz;
    DivMod(1000, hz);
    assert q * hz + 1000 % hz == 1000;
    if 1000 % hz == 0 {
      DivUnique(1000 + q - 1, q, hz);
    } else if Limit(hz) <= hz {
      DivMod(1000 + q - 1, q);
      MulLe(Limit(hz), hz, q);
    }
  }

  lemma LimitAtLeastRate(hz: nat)
    requires 1 <= hz <= 1000
    ensures Limit(hz) >= hz
  {
    var q := 1000 / hz;
    DivMod(1000, hz);
    DivMod(1000 + q - 1, q);
    if Limit(hz) < hz {
      MulLe(Limit(hz), hz - 1, q);
    }
  }

  lemma DivUnique(a: nat, q: nat, m: nat)
    requires q > 0 && m * q <= a < m * q + q
    ensures a / q == m
  {
    DivMod(a, q);
    if a / q < m { MulLe(a / q + 1, m, q); }
    if a / q > m { MulLe(m + 1, a / q, q); }
  }

  /**
   * The promise of at most hz frames a second is kept exactly when hz divides 1000 and the rate is not set anew
   * within the second.
   */
  lemma RatePromisedIff(hz: nat, resets: nat)
    requires 1 <= hz <= 1000
    ensures AtMostPerSecond(hz, resets, hz) <==> 1000 % hz == 0 && resets == 0
  {
    LimitIsLeast(hz, resets, hz);
    LimitIsRateIff(hz);
    LimitAtLeastRate(hz);
  }
}

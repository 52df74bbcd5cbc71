/**
 The funding safeguard: annualize the funding charged at each rollover of the next funding
 time, alert once per interval, and pause after enough hostile intervals in a row.
 */
module FundingGuard {
  import opened Options
  import opened GridLevels
  import opened Numbers

  const MS_PER_YEAR: int := 365 * 24 * 60 * 60 * 1000
  const FUNDING_INTERVAL_MIN_MS: int := 30 * 60 * 1000
  const FUNDING_INTERVAL_MAX_MS: int := 24 * 60 * 60 * 1000

  datatype Config = Config(direction: Direction, alertApr: real, pauseApr: real, pauseIntervals: nat)

  /** One tick: the ticker's rate and next funding time, and whether the bot holds a position.
      `finite` is false when either number did not parse. */
  datatype Tick = Tick(finite: bool, rate: real, nextTime: int, hasPosition: bool)

  datatype Guard = Guard(
    prevNextTime: Option<int>, prevRate: Option<real>, intervalMs: Option<int>, hostileIntervals: nat,
    alertedForNextTime: Option<int>)

  /** What a tick does besides updating the guard. */
  datatype Effect = Effect(paused: bool, alert: Option<int>)

  predicate Usable(t: Tick) {
    t.finite && t.nextTime > 0
  }

  predicate Hostile(d: Direction, hasPosition: bool, rate: real) {
    hasPosition && (if d == Long then rate > 0.0 else rate < 0.0)
  }

  function Apr(rate: real, intervalMs: int): real
    requires intervalMs > 0
  {
    Abs(rate) * ((MS_PER_YEAR as real) / (intervalMs as real)) * 100.0
  }

  predicate Rollover(g: Guard, t: Tick) {
    Usable(t) && g.prevNextTime.Some? && t.nextTime > g.prevNextTime.value
  }

  /** The interval known once this rollover's length is taken in, if it is plausible. */
  function IntervalAfter(g: Guard, t: Tick): Option<int>
    requires Rollover(g, t)
  {
    var delta := t.nextTime - g.prevNextTime.value;
    if FUNDING_INTERVAL_MIN_MS <= delta <= FUNDING_INTERVAL_MAX_MS then Some(delta) else g.intervalMs
  }

  ghost predicate ValidGuard(g: Guard) {
    && (g.intervalMs.Some? ==> g.intervalMs.value > 0)
    && (g.prevNextTime.None? <==> g.prevRate.None?)
  }

  /** The rate in effect for the interval that just ended. */
  function AppliedRate(g: Guard, t: Tick): real {
    if g.prevRate.Some? then g.prevRate.value else t.rate
  }

  /** The rollover charged hostile funding at the pause level: the streak grows. */
  predicate Charges(cfg: Config, g: Guard, t: Tick)
    requires g.intervalMs.Some? ==> g.intervalMs.value > 0
  {
    && Rollover(g, t)
    && IntervalAfter(g, t).Some?
    && Hostile(cfg.direction, t.hasPosition, AppliedRate(g, t))
    && Apr(AppliedRate(g, t), IntervalAfter(g, t).value) >= cfg.pauseApr
  }

  /** The streak is dropped: no position, or a rollover that was not hostile or below the alert level. */
  predicate Clears(cfg: Config, g: Guard, t: Tick)
    requires g.intervalMs.Some? ==> g.intervalMs.value > 0
  {
    && Usable(t)
    && !Charges(cfg, g, t)
    && (|| !t.hasPosition
        || (&& Rollover(g, t) && IntervalAfter(g, t).Some?
            && (!Hostile(cfg.direction, t.hasPosition, AppliedRate(g, t))
                || Apr(AppliedRate(g, t), IntervalAfter(g, t).value) < cfg.alertApr)))
  }

  class GuardedBot {
    const cfg: Config
    var guard: Guard

    constructor (cfg: Config)
      ensures this.cfg == cfg && guard == Guard(None, None, None, 0, None)
    {
      this.cfg, guard := cfg, Guard(None, None, None, 0, None);
    }

    /** assertFundingHeadroom. */
    method AssertFundingHeadroom(t: Tick) returns (e: Effect)
      requires ValidGuard(guard)
      modifies this
      ensures ValidGuard(guard)
      ensures (guard, e) == Step(cfg, old(guard), t)
    {
      e := Effect(false, None);
      if !t.finite || t.nextTime <= 0 {
        return;
      }
      var g := guard;
      var hostileNow := Hostile(cfg.direction, t.hasPosition, t.rate);
      if !t.hasPosition {
        g := g.(hostileIntervals := 0);
      }
      if g.prevNextTime.None? {
        guard := g.(prevNextTime := Some(t.nextTime), prevRate := Some(t.rate));
        return;
      }
      if t.nextTime > g.prevNextTime.value {
        var delta := t.nextTime - g.prevNextTime.value;
        if delta >= FUNDING_INTERVAL_MIN_MS && delta <= FUNDING_INTERVAL_MAX_MS {
          g := g.(intervalMs := Some(delta));
        }
        var appliedRate := if g.prevRate.Some? then g.prevRate.value else t.rate;
        var appliedHostile := Hostile(cfg.direction, t.hasPosition, appliedRate);
        if g.intervalMs.Some? {
          var appliedApr := Apr(appliedRate, g.intervalMs.value);
          if appliedHostile && appliedApr >= cfg.pauseApr {
            g := g.(hostileIntervals := g.hostileIntervals + 1);
          } else if !appliedHostile || appliedApr < cfg.alertApr {
            g := g.(hostileIntervals := 0);
          }
        }
        g := g.(prevNextTime := Some(t.nextTime), prevRate := Some(t.rate));
        if g.hostileIntervals >= cfg.pauseIntervals {
          guard, e := g, Effect(true, None);
          return;
        }
      } else {
        g := g.(prevRate := Some(t.rate));
      }
      if hostileNow && g.intervalMs.Some? && g.alertedForNextTime != g.prevNextTime {
        if Apr(t.rate, g.intervalMs.value) >= cfg.alertApr {
          e := Effect(false, g.prevNextTime);
          g := g.(alertedForNextTime := g.prevNextTime);
        }
      }
      guard := g;
    }
  }

  /** The streak after the tick. */
  function StreakAfter(cfg: Config, g: Guard, t: Tick): nat
    requires ValidGuard(g)
  {
    var from := if t.hasPosition then g.hostileIntervals else 0;
    if Charges(cfg, g, t) then from + 1 else if Clears(cfg, g, t) then 0 else from
  }

  /** One tick as a function of the guard. */
  function Step(cfg: Config, g: Guard, t: Tick): (r: (Guard, Effect))
    requires ValidGuard(g)
    ensures ValidGuard(r.0)
  {
    if !Usable(t) then (g, Effect(false, None))
    else
      var streak := StreakAfter(cfg, g, t);
      var interval := if Rollover(g, t) then IntervalAfter(g, t) else g.intervalMs;
      var next := if Rollover(g, t) || g.prevNextTime.None? then Some(t.nextTime) else g.prevNextTime;
      var moved := Guard(next, Some(t.rate), interval, streak, g.alertedForNextTime);
      if g.prevNextTime.None? then (moved, Effect(false, None))
      else if Rollover(g, t) && streak >= cfg.pauseIntervals then (moved, Effect(true, None))
      else if Hostile(cfg.direction, t.hasPosition, t.rate) && interval.Some? && g.alertedForNextTime != next
              && Apr(t.rate, interval.value) >= cfg.alertApr then
        (moved.(alertedForNextTime := next), Effect(false, next))
      else (moved, Effect(false, None))
  }

  // ----- runs

  function Run(cfg: Config, ticks: seq<Tick>): (g: Guard)
    ensures ValidGuard(g)
  {
    if ticks == [] then Guard(None, None, None, 0, None)
    else Step(cfg, Run(cfg, ticks[..|ticks|-1]), ticks[|ticks|-1]).0
  }

  function EffectAt(cfg: Config, ticks: seq<Tick>, n: nat): Effect
    requires n < |ticks|
  {
    Step(cfg, Run(cfg, ticks[..n]), ticks[n]).1
  }

  /** The next funding times of the pause-level hostile rollovers since the streak was last cleared. */
  function Streak(cfg: Config, ticks: seq<Tick>): seq<int> {
    if ticks == [] then []
    else
      var before, t := ticks[..|ticks|-1], ticks[|ticks|-1];
      var g := Run(cfg, before);
      if Charges(cfg, g, t) then Streak(cfg, before) + [t.nextTime]
      else if Clears(cfg, g, t) then []
      else Streak(cfg, before)
  }

  predicate Rising(times: seq<int>) {
    forall j, k | 0 <= j < k < |times| :: times[j] < times[k]
  }

  /** The counter is the length of the streak, whose rollovers are distinct and in time order. */
  lemma {:induction false} CounterIsStreak(cfg: Config, ticks: seq<Tick>)
    ensures Run(cfg, ticks).hostileIntervals == |Streak(cfg, ticks)|
    ensures Rising(Streak(cfg, ticks))
    ensures var s := Streak(cfg, ticks);
      s != [] ==> Run(cfg, ticks).prevNextTime.Some? && s[|s|-1] <= Run(cfg, ticks).prevNextTime.value
  {
    if ticks != [] {
      CounterIsStreak(cfg, ticks[..|ticks|-1]);
      var s := Streak(cfg, ticks[..|ticks|-1]);
      if Charges(cfg, Run(cfg, ticks[..|ticks|-1]), ticks[|ticks|-1]) && s != [] {
        assert forall k | 0 <= k < |s| :: s[k] <= s[|s|-1];
      }
    }
  }

  /** A pause is raised only at a rollover, with at least the configured number of pause-level
      hostile rollovers since the streak was last cleared. */
  lemma PauseNeedsStreak(cfg: Config, ticks: seq<Tick>, n: nat)
    requires n < |ticks|
    ensures EffectAt(cfg, ticks, n).paused <==>
      Rollover(Run(cfg, ticks[..n]), ticks[n]) && |Streak(cfg, ticks[..n+1])| >= cfg.pauseIntervals
  {
    CounterIsStreak(cfg, ticks[..n+1]);
    assert ticks[..n+1][..n] == ticks[..n];
  }

  function TimeOf(g: Guard): int {
    if g.prevNextTime.Some? then g.prevNextTime.value else 0
  }

  /** The funding time the guard has seen never goes back, and no alert is ahead of it. */
  lemma {:induction false} TimeNeverFalls(cfg: Config, ticks: seq<Tick>, m: nat)
    requires m <= |ticks|
    ensures TimeOf(Run(cfg, ticks[..m])) <= TimeOf(Run(cfg, ticks))
    ensures Run(cfg, ticks).alertedForNextTime.Some? ==>
      Run(cfg, ticks).prevNextTime.Some? && Run(cfg, ticks).alertedForNextTime.value <= TimeOf(Run(cfg, ticks))
    decreases |ticks|
  {
    if m < |ticks| {
      TimeNeverFalls(cfg, ticks[..|ticks|-1], m);
      assert ticks[..|ticks|-1][..m] == ticks[..m];
    } else {
      assert ticks[..m] == ticks;
      if m > 0 {
        TimeNeverFalls(cfg, ticks[..m-1], m - 1);
      }
    }
  }

  /** Once an alert went out for a time, the guard remembers that time or a later one. */
  lemma {:induction false} AlertRemembered(cfg: Config, ticks: seq<Tick>, i: nat)
    requires i < |ticks| && EffectAt(cfg, ticks, i).alert.Some?
    ensures Run(cfg, ticks).alertedForNextTime.Some?
    ensures EffectAt(cfg, ticks, i).alert.value <= Run(cfg, ticks).alertedForNextTime.value
    decreases |ticks|
  {
    var n := |ticks| - 1;
    if i < n {
      var before := ticks[..n];
      assert before[..i] == ticks[..i];
      AlertRemembered(cfg, before, i);
      TimeNeverFalls(cfg, before, 0);
    }
  }

  /** No two alerts carry the same next funding time: later alerts carry later times. */
  lemma AlertsAreDistinct(cfg: Config, ticks: seq<Tick>, i: nat, j: nat)
    requires i < j < |ticks|
    requires EffectAt(cfg, ticks, i).alert.Some? && EffectAt(cfg, ticks, j).alert.Some?
    ensures EffectAt(cfg, ticks, i).alert.value < EffectAt(cfg, ticks, j).alert.value
  {
    var before := ticks[..j];
    assert before[..i] == ticks[..i];
    AlertRemembered(cfg, before, i);
    TimeNeverFalls(cfg, before, 0);
  }

  // ----- what the position pays

  /** The share of its value that a position pays for an interval: a long pays a positive rate, a short
      a negative one; below zero it is paid. */
  function Pays(d: Direction, rate: real): real {
    match d
    case Long => rate
    case Short => -rate
  }

  /** What it would pay over a year of such intervals, in percent. */
  function PaysPerYear(d: Direction, rate: real, intervalMs: int): real
    requires intervalMs > 0
  {
    Times(Pays(d, rate), Over(100.0 * (MS_PER_YEAR as real), intervalMs as real))
  }

  lemma PaidIsHostile(d: Direction, rate: real, intervalMs: int)
    requires intervalMs > 0
    ensures Hostile(d, true, rate) <==> Pays(d, rate) > 0.0
    ensures Hostile(d, true, rate) ==> Apr(rate, intervalMs) == PaysPerYear(d, rate, intervalMs)
  {
    Regroup(Abs(rate), MS_PER_YEAR as real, intervalMs as real);
  }

  lemma Regroup(x: real, y: real, z: real)
    requires z > 0.0
    ensures x * (y / z) * 100.0 == Times(x, Over(100.0 * y, z))
  {
    Quotient(y, z);
    Quotient(100.0 * y, z);
    assert Times(Over(100.0 * y, z), z) == Times(100.0 * (y / z), z);
    SameFactor(Over(100.0 * y, z), 100.0 * (y / z), z);
  }

  lemma SameFactor(a: real, b: real, n: real)
    requires n > 0.0 && Times(a, n) == Times(b, n)
    ensures a == b
  {
    ProductOrder(a, b, n);
    ProductOrder(b, a, n);
  }

  /** A ticker whose numbers do not parse, or whose next funding time is not positive, is ignored. */
  lemma BadTickIgnored(cfg: Config, g: Guard, t: Tick)
    requires ValidGuard(g) && (!t.finite || t.nextTime <= 0)
    ensures Step(cfg, g, t) == (g, Effect(false, None))
  {
  }

  /** The interval is learned from a rollover between half an hour and a day after the last, and kept
      otherwise. */
  lemma IntervalLearned(cfg: Config, g: Guard, t: Tick)
    requires ValidGuard(g) && Rollover(g, t)
    ensures var length := t.nextTime - g.prevNextTime.value;
      Step(cfg, g, t).0.intervalMs == if 1_800_000 <= length <= 86_400_000 then Some(length) else g.intervalMs
  {
  }

  /** With a position open, a rollover adds to the streak when the interval that ended cost the pause
      level, ends it when the interval cost nothing or less than the alert level, and leaves it otherwise. */
  lemma RolloverMovesStreak(cfg: Config, g: Guard, t: Tick)
    requires ValidGuard(g) && Rollover(g, t) && t.hasPosition && IntervalAfter(g, t).Some?
    ensures var paid := Pays(cfg.direction, g.prevRate.value);
      var perYear := PaysPerYear(cfg.direction, g.prevRate.value, IntervalAfter(g, t).value);
      Step(cfg, g, t).0.hostileIntervals ==
        if paid > 0.0 && perYear >= cfg.pauseApr then g.hostileIntervals + 1
        else if paid <= 0.0 || perYear < cfg.alertApr then 0
        else g.hostileIntervals
  {
    PaidIsHostile(cfg.direction, g.prevRate.value, IntervalAfter(g, t).value);
  }

  /** A tick that does not pause alerts exactly when the position pays at the alert level for the coming
      funding time and no alert named that time yet. */
  lemma AlertExactlyWhen(cfg: Config, g: Guard, t: Tick)
    requires ValidGuard(g) && Usable(t) && g.prevNextTime.Some? && !Step(cfg, g, t).1.paused
    ensures var after := Step(cfg, g, t).0;
      && after.prevNextTime.Some?
      && (Step(cfg, g, t).1.alert.Some? <==>
            && t.hasPosition && Pays(cfg.direction, t.rate) > 0.0 && after.intervalMs.Some?
            && PaysPerYear(cfg.direction, t.rate, after.intervalMs.value) >= cfg.alertApr
            && g.alertedForNextTime != after.prevNextTime)
      && (Step(cfg, g, t).1.alert.Some? ==> Step(cfg, g, t).1.alert == after.prevNextTime == after.alertedForNextTime)
  {
    var after := Step(cfg, g, t).0;
    if after.intervalMs.Some? {
      PaidIsHostile(cfg.direction, t.rate, after.intervalMs.value);
    }
  }

  /** The rates never cost the position anything: at most 0 for a long, at least 0 for a short. */
  ghost predicate NeverPays(d: Direction, ticks: seq<Tick>) {
    forall k | 0 <= k < |ticks| :: Pays(d, ticks[k].rate) <= 0.0
  }

  lemma {:induction false} NoStreak(cfg: Config, ticks: seq<Tick>)
    requires NeverPays(cfg.direction, ticks)
    ensures var g := Run(cfg, ticks);
      g.hostileIntervals == 0 && (g.prevRate.Some? ==> Pays(cfg.direction, g.prevRate.value) <= 0.0)
  {
    if ticks != [] {
      NoStreak(cfg, ticks[..|ticks|-1]);
    }
  }

  /** A bot whose position is never charged is neither alerted nor paused, whatever the ticks. */
  lemma UnchargedBotRunsOn(cfg: Config, ticks: seq<Tick>, n: nat)
    requires n < |ticks| && NeverPays(cfg.direction, ticks) && cfg.pauseIntervals > 0
    ensures EffectAt(cfg, ticks, n) == Effect(false, None)
  {
    NoStreak(cfg, ticks[..n]);
    NoStreak(cfg, ticks[..n+1]);
    assert ticks[..n+1][..n] == ticks[..n];
  }

  /** The interval between two ticks has a plausible length and was charged at the pause level. */
  ghost predicate PaidFor(cfg: Config, t: Tick, next: Tick) {
    var length := next.nextTime - t.nextTime;
    && FUNDING_INTERVAL_MIN_MS <= length <= FUNDING_INTERVAL_MAX_MS
    && Pays(cfg.direction, t.rate) > 0.0
    && PaysPerYear(cfg.direction, t.rate, length) >= cfg.pauseApr
  }

  /** One tick for each interval, with the position open, and every interval paid for. */
  ghost predicate PaysThroughout(cfg: Config, ticks: seq<Tick>) {
    && (forall k | 0 <= k < |ticks| :: Usable(ticks[k]) && ticks[k].hasPosition)
    && forall k | 0 < k < |ticks| :: PaidFor(cfg, ticks[k-1], ticks[k])
  }

  lemma PrefixPays(cfg: Config, ticks: seq<Tick>, n: nat)
    requires n <= |ticks| && PaysThroughout(cfg, ticks)
    ensures PaysThroughout(cfg, ticks[..n])
  {
    hide PaidFor;
  }

  lemma {:induction false} StreakGrows(cfg: Config, ticks: seq<Tick>)
    requires ticks != [] && PaysThroughout(cfg, ticks)
    ensures var g, last := Run(cfg, ticks), ticks[|ticks|-1];
      && g.hostileIntervals == |ticks| - 1
      && g.prevNextTime == Some(last.nextTime) && g.prevRate == Some(last.rate)
  {
    var n := |ticks| - 1;
    var before := ticks[..n];
    if n > 0 {
      PrefixPays(cfg, ticks, n);
      StreakGrows(cfg, before);
      assert PaidFor(cfg, ticks[n-1], ticks[n]);
      RolloverMovesStreak(cfg, Run(cfg, before), ticks[n]);
    } else {
      assert before == [];
    }
  }

  /** A bot that is charged at the pause level in every interval is paused at the configured rollover and
      not before. */
  lemma ChargedBotIsPaused(cfg: Config, ticks: seq<Tick>, n: nat)
    requires n < |ticks| && PaysThroughout(cfg, ticks)
    ensures EffectAt(cfg, ticks, n).paused <==> n > 0 && n >= cfg.pauseIntervals
  {
    hide Step, Run, Streak, EffectAt, PaysPerYear;
    PauseNeedsStreak(cfg, ticks, n);
    CounterIsStreak(cfg, ticks[..n+1]);
    PrefixPays(cfg, ticks, n + 1);
    StreakGrows(cfg, ticks[..n+1]);
    if n > 0 {
      PrefixPays(cfg, ticks, n);
      StreakGrows(cfg, ticks[..n]);
    } else {
      NothingSeen(cfg, ticks[..0]);
    }
  }

  lemma NothingSeen(cfg: Config, ticks: seq<Tick>)
    requires ticks == []
    ensures Run(cfg, ticks).prevNextTime.None?
  {
  }
}

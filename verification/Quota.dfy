/** The quota limiter: aligned windows, aligned slices, and what it admits over any run of calls. */
module Quota {
  import opened Wrappers

  const NANOS_PER_MILLI: nat := 1_000_000
  const SLICES: nat := 24

  datatype Strategy = Unit | EvenSpreadHourly | Weighted

  /** The window is a duration in nanoseconds. */
  datatype Config = Config(limit: nat, window: nat, strategy: Strategy)

  datatype Exceeded = Exceeded(remaining: nat, resetInMs: nat)

  datatype Runtime = Runtime(
    limit: nat,
    window: nat,
    strategy: Strategy,
    callsInWindow: nat,
    lastReset: int,
    allowedPerSlice: nat,
    sliceDuration: nat,
    callsInSlice: nat,
    sliceStart: int)

  function Max(a: nat, b: nat): nat { if a >= b then a else b }

  function Min(a: nat, b: nat): nat { if a <= b then a else b }

  function PerSlice(limit: nat): nat { Max(1, limit / SLICES) }

  /** A slice is a 24th of the window, in whole milliseconds and at least one. */
  function SliceNanos(window: nat): (d: nat)
    ensures d > 0
  {
    Max(1, Min(window / NANOS_PER_MILLI, U64_MAX) / SLICES) * NANOS_PER_MILLI
  }

  /** The limiter as created: the two clocks are read one after the other. */
  function Created(c: Config, windowClock: int, sliceClock: int): Runtime {
    var spread := c.strategy.EvenSpreadHourly?;
    Runtime(c.limit, c.window, c.strategy, 0, windowClock,
            if spread then PerSlice(c.limit) else 0, if spread then SliceNanos(c.window) else 0, 0, sliceClock)
  }

  /** The time from `start` to `now`; zero if the clock has not moved past it. */
  function Elapsed(start: int, now: int): nat {
    if now <= start then 0 else now - start
  }

  /** The largest multiple of `period` that is at most `elapsed`. */
  function WholePeriods(elapsed: nat, period: nat): (w: nat)
    requires period > 0
    ensures w <= elapsed < w + period
  {
    if elapsed < period then 0 else period + WholePeriods(elapsed - period, period)
  }

  lemma {:induction false} WholePeriodsByDivision(elapsed: nat, period: nat)
    requires period > 0
    ensures WholePeriods(elapsed, period) == elapsed / period * period
  {
    if elapsed < period {
      QuotientUnique(elapsed, period, 0, elapsed);
    } else {
      var rest := elapsed - period;
      WholePeriodsByDivision(rest, period);
      var q, r := rest / period, rest % period;
      DivideWithRemainder(rest, period);
      OneMorePeriod(q, period);
      QuotientUnique(elapsed, period, q + 1, r);
    }
  }

  lemma DivideWithRemainder(x: nat, m: nat)
    requires m > 0
    ensures x == x / m * m + x % m && x % m < m
  {
  }

  lemma OneMorePeriod(q: nat, period: nat)
    ensures (q + 1) * period == q * period + period
  {
  }

  lemma QuotientUnique(x: nat, m: nat, q: nat, r: nat)
    requires m > 0 && x == q * m + r && r < m
    ensures x / m == q
  {
    var d := x / m;
    assert d * m <= x < d * m + m;
    if d < q {
      TimesMonotone(d + 1, q, m);
    } else if q < d {
      TimesMonotone(q + 1, d, m);
    }
  }

  lemma TimesMonotone(a: nat, b: nat, m: nat)
    requires a <= b
    ensures a * m <= b * m
  {
  }

  /** How far a boundary advances: the whole periods elapsed, clamped to 64 bits of nanoseconds. */
  function BoundaryOffset(elapsed: nat, period: nat): nat
    requires period > 0
  {
    Min(WholePeriods(elapsed, period), U64_MAX)
  }

  class QuotaAwareConnector {
    const limit: nat
    const window: nat
    const strategy: Strategy
    var callsInWindow: nat
    var lastReset: int
    const allowedPerSlice: nat
    const sliceDuration: nat
    var callsInSlice: nat
    var sliceStart: int

    function Value(): Runtime
      reads this
    {
      Runtime(limit, window, strategy, callsInWindow, lastReset, allowedPerSlice, sliceDuration, callsInSlice,
              sliceStart)
    }

    constructor (config: Config, windowClock: int, sliceClock: int)
      ensures Value() == Created(config, windowClock, sliceClock)
    {
      limit, window, strategy := config.limit, config.window, config.strategy;
      callsInWindow, lastReset := 0, windowClock;
      var spread := config.strategy.EvenSpreadHourly?;
      allowedPerSlice := if spread then PerSlice(config.limit) else 0;
      sliceDuration := if spread then SliceNanos(config.window) else 0;
      callsInSlice, sliceStart := 0, sliceClock;
    }

    /** Whether a call at time `now` is within budget. A zero window would divide by zero. */
    method ShouldAllowCall(now: int) returns (r: Result<(), Exceeded>)
      requires window > 0 && (strategy.EvenSpreadHourly? ==> sliceDuration > 0)
      modifies this
      ensures (Value(), r) == Call(old(Value()), now)
    {
      var elapsed := Elapsed(lastReset, now);
      if elapsed >= window {
        callsInWindow := 0;
        WholePeriodsByDivision(elapsed, window);
        lastReset := lastReset + Min(elapsed / window * window, U64_MAX);
      }
      if strategy.EvenSpreadHourly? {
        var inSlice := Elapsed(sliceStart, now);
        if inSlice >= sliceDuration {
          callsInSlice := 0;
          WholePeriodsByDivision(inSlice, sliceDuration);
          sliceStart := sliceStart + Min(inSlice / sliceDuration * sliceDuration, U64_MAX);
        }
        if callsInSlice >= allowedPerSlice && callsInWindow < limit {
          return Err(Exceeded(limit - callsInWindow, ResetInMs(sliceDuration, sliceStart, now)));
        }
      }
      if callsInWindow < limit {
        callsInWindow := callsInWindow + 1;
        if strategy.EvenSpreadHourly? {
          callsInSlice := callsInSlice + 1;
        }
        return Ok(());
      }
      return Err(Exceeded(0, ResetInMs(window, lastReset, now)));
    }
  }

  function ResetInMs(period: nat, start: int, now: int): nat {
    var elapsed := Elapsed(start, now);
    Min((if elapsed >= period then 0 else period - elapsed) / NANOS_PER_MILLI, U64_MAX)
  }

  // ---- One call on values -----------------------------------------------------------------

  predicate Usable(rt: Runtime) {
    rt.window > 0 && (rt.strategy.EvenSpreadHourly? ==> rt.sliceDuration > 0)
  }

  /** Moves the window and slice boundaries up to `now`. */
  function Advanced(rt: Runtime, now: int): Runtime
    requires Usable(rt)
  {
    var e := Elapsed(rt.lastReset, now);
    var w := if e >= rt.window then rt.(callsInWindow := 0, lastReset := rt.lastReset + BoundaryOffset(e, rt.window))
        else rt;
    var se := Elapsed(rt.sliceStart, now);
    if rt.strategy.EvenSpreadHourly? && se >= rt.sliceDuration
    then w.(callsInSlice := 0, sliceStart := rt.sliceStart + BoundaryOffset(se, rt.sliceDuration))
    else w
  }

  function Call(rt: Runtime, now: int): (Runtime, Result<(), Exceeded>)
    requires Usable(rt)
  {
    var a := Advanced(rt, now);
    if a.callsInWindow >= a.limit then (a, Err(Exceeded(0, ResetInMs(a.window, a.lastReset, now))))
    else if a.strategy.EvenSpreadHourly? && a.callsInSlice >= a.allowedPerSlice
    then (a, Err(Exceeded(a.limit - a.callsInWindow, ResetInMs(a.sliceDuration, a.sliceStart, now))))
    else
      (a.(callsInWindow := a.callsInWindow + 1,
          callsInSlice := if a.strategy.EvenSpreadHourly? then a.callsInSlice + 1 else a.callsInSlice),
       Ok(()))
  }

  // ---- Boundaries -------------------------------------------------------------------------

  /** The start of the aligned period that contains `now`, for periods counted from `origin`. */
  function PeriodStart(origin: int, period: nat, now: int): (start: int)
    requires period > 0 && origin <= now
    ensures origin <= start <= now < start + period
  {
    origin + WholePeriods(now - origin, period)
  }

  /** `start` is a multiple of the period away from `origin`. */
  predicate Aligned(origin: int, period: nat, start: int) {
    period > 0 && origin <= start && start == PeriodStart(origin, period, start)
  }

  lemma {:induction false} WholePeriodsShift(x: nat, y: nat, period: nat)
    requires period > 0
    ensures WholePeriods(WholePeriods(x, period) + y, period) == WholePeriods(x, period) + WholePeriods(y, period)
  {
    if x >= period {
      WholePeriodsShift(x - period, y, period);
    }
  }

  lemma PeriodStartAligned(origin: int, period: nat, now: int)
    requires period > 0 && origin <= now
    ensures Aligned(origin, period, PeriodStart(origin, period, now))
    ensures Aligned(origin, period, PeriodStart(origin, period, now) + period)
  {
    WholePeriodsShift(now - origin, 0, period);
    WholePeriodsShift(now - origin, period, period);
    assert WholePeriods(period, period) == period + WholePeriods(0, period);
  }

  /** An aligned period that contains `now` is the one that starts at `PeriodStart`. */
  lemma PeriodUnique(origin: int, period: nat, start: int, now: int)
    requires Aligned(origin, period, start) && start <= now
    ensures PeriodStart(origin, period, now) == start + WholePeriods(now - start, period)
    ensures now < start + period ==> PeriodStart(origin, period, now) == start
  {
    WholePeriodsShift(start - origin, now - start, period);
  }

  /**
   * The boundary after a call is the aligned one that contains the call iff the whole periods skipped
   * fit in 64 bits of nanoseconds.
   */
  lemma AdvanceExactly(origin: int, period: nat, start: int, now: int)
    requires Aligned(origin, period, start) && start <= now
    ensures start + BoundaryOffset(now - start, period) == PeriodStart(origin, period, now)
            <==> (now - start) / period * period <= U64_MAX
  {
    PeriodUnique(origin, period, start, now);
    WholePeriodsByDivision(now - start, period);
  }

  /** A gap of two windows of just under 2^64 ns leaves the boundary off the grid. */
  lemma LongGapMisaligns()
    ensures var w := U64_MAX - 1; BoundaryOffset(2 * w, w) == w + 1 && !Aligned(0, w, w + 1)
  {
    var w := U64_MAX - 1;
    assert WholePeriods(2 * w, w) == w + WholePeriods(w, w);
    assert WholePeriods(w, w) == w + WholePeriods(0, w);
    assert WholePeriods(w + 1, w) == w + WholePeriods(1, w);
  }

  // ---- Runs -------------------------------------------------------------------------------

  datatype Entry = Entry(time: int, result: Result<(), Exceeded>)

  /** The limiter and its log after calls at the given times. */
  function After(rt: Runtime, times: seq<int>): (r: (Runtime, seq<Entry>))
    requires Usable(rt)
    ensures Usable(r.0)
    ensures |r.1| == |times| && forall i | 0 <= i < |times| :: r.1[i].time == times[i]
  {
    if times == [] then (rt, [])
    else
      var (before, log) := After(rt, times[..|times| - 1]);
      var now := times[|times| - 1];
      var (next, result) := Call(before, now);
      (next, log + [Entry(now, result)])
  }

  /** How many calls in [lo, hi) were admitted. */
  function Admitted(log: seq<Entry>, lo: int, hi: int): nat {
    if log == [] then 0
    else
      var last := log[|log| - 1];
      Admitted(log[..|log| - 1], lo, hi) + if last.result.Ok? && lo <= last.time < hi then 1 else 0
  }

  lemma {:induction false} NoneAdmittedLater(log: seq<Entry>, lo: int, hi: int)
    requires forall i | 0 <= i < |log| :: log[i].time < lo
    ensures Admitted(log, lo, hi) == 0
  {
    if log != [] {
      NoneAdmittedLater(log[..|log| - 1], lo, hi);
    }
  }

  lemma {:induction false} AdmittedSplits(log: seq<Entry>, lo: int, mid: int, hi: int)
    requires lo <= mid <= hi
    ensures Admitted(log, lo, hi) == Admitted(log, lo, mid) + Admitted(log, mid, hi)
  {
    if log != [] {
      AdmittedSplits(log[..|log| - 1], lo, mid, hi);
    }
  }

  lemma {:induction false} AdmittedMonotone(log: seq<Entry>, lo: int, hi: int, lo': int, hi': int)
    requires lo' <= lo && hi <= hi'
    ensures Admitted(log, lo, hi) <= Admitted(log, lo', hi')
  {
    if log != [] {
      AdmittedMonotone(log[..|log| - 1], lo, hi, lo', hi');
    }
  }

  lemma AdmittedAppend(log: seq<Entry>, e: Entry, lo: int, hi: int)
    ensures Admitted(log + [e], lo, hi) == Admitted(log, lo, hi) + if e.result.Ok? && lo <= e.time < hi then 1 else 0
  {
    assert (log + [e])[..|log + [e]| - 1] == log;
  }

  /** A counter and its period: the counter holds what its current period has admitted. */
  ghost predicate Counts(count: nat, start: int, period: nat, origin: int, log: seq<Entry>, now: int) {
    Aligned(origin, period, start) && start <= now < start + period && count == Admitted(log, start, start + period)
  }

  /** The whole periods between two calls fit in 64 bits of nanoseconds. */
  predicate GapFits(origin: int, period: nat, last: int, now: int) {
    && period > 0 && origin <= last <= now
    && PeriodStart(origin, period, now) - PeriodStart(origin, period, last) <= U64_MAX
  }

  function LastOr(times: seq<int>, default: int): int {
    if times == [] then default else times[|times| - 1]
  }

  predicate GapsFit(origin: int, period: nat, times: seq<int>) {
    times == [] ||
    (var init := times[..|times| - 1];
     GapsFit(origin, period, init) && GapFits(origin, period, LastOr(init, origin), times[|times| - 1]))
  }

  lemma GapsFitAppend(origin: int, period: nat, times: seq<int>, now: int)
    ensures GapsFit(origin, period, times + [now]) <==>
            GapsFit(origin, period, times) && GapFits(origin, period, LastOr(times, origin), now)
  {
    assert (times + [now])[..|times + [now]| - 1] == times;
  }

  /** Advancing a counter to `now` leaves it counting the period of `now`. */
  lemma AdvanceCounts(count: nat, start: int, period: nat, origin: int, log: seq<Entry>, last: int, now: int)
    requires Counts(count, start, period, origin, log, last) && GapFits(origin, period, last, now)
    requires forall i | 0 <= i < |log| :: log[i].time <= last
    ensures var e := Elapsed(start, now);
      var start' := if e >= period then start + BoundaryOffset(e, period) else start;
      Counts(if e >= period then 0 else count, start', period, origin, log, now) &&
          start' == PeriodStart(origin, period, now)
  {
    PeriodUnique(origin, period, start, last);
    PeriodUnique(origin, period, start, now);
    PeriodStartAligned(origin, period, now);
    if Elapsed(start, now) >= period {
      var start' := PeriodStart(origin, period, now);
      assert start + period <= start' by {
        assert WholePeriods(now - start, period) == period + WholePeriods(now - start - period, period);
      }
      NoneAdmittedLater(log, start', start' + period);
    }
  }

  /**
   * A run: the window clock is read first, then the slice clock, then calls arrive on a clock that never goes back. The
   * periods skipped between two calls fit in 64 bits, which is what `AdvanceExactly` needs; the run itself may be of
   * any length.
   */
  ghost predicate IsRun(c: Config, t0: int, t1: int, times: seq<int>) {
    && c.window > 0 && t0 <= t1
    && (forall i | 0 <= i < |times| :: t1 <= times[i])
    && (forall i, j | 0 <= i < j < |times| :: times[i] <= times[j])
    && GapsFit(t0, c.window, times) && (c.strategy.EvenSpreadHourly? ==> GapsFit(t1, SliceNanos(c.window), times))
  }

  /** What the limiter's two counters hold, in terms of its log. */
  ghost predicate Tracks(c: Config, t0: int, t1: int, rt: Runtime, log: seq<Entry>, times: seq<int>) {
    && rt == Created(c, t0, t1).(callsInWindow := rt.callsInWindow, lastReset := rt.lastReset,
                                 callsInSlice := rt.callsInSlice, sliceStart := rt.sliceStart)
    && Counts(rt.callsInWindow, rt.lastReset, c.window, t0, log, LastOr(times, t0))
    && (c.strategy.EvenSpreadHourly? ==>
        Counts(rt.callsInSlice, rt.sliceStart, SliceNanos(c.window), t1, log, LastOr(times, t1)))
  }

  /** The last call of a run comes after the others, with gaps that fit. */
  lemma NextCall(c: Config, t0: int, t1: int, times: seq<int>, now: int)
    requires IsRun(c, t0, t1, times + [now])
    ensures GapFits(t0, c.window, LastOr(times, t0), now)
    ensures c.strategy.EvenSpreadHourly? ==> GapFits(t1, SliceNanos(c.window), LastOr(times, t1), now)
    ensures forall i | 0 <= i < |times| :: times[i] <= LastOr(times, t0) && times[i] <= LastOr(times, t1)
    ensures LastOr(times + [now], t0) == now && LastOr(times + [now], t1) == now
  {
    var all := times + [now];
    assert forall i | 0 <= i < |times| :: all[i] == times[i];
    GapsFitAppend(t0, c.window, times, now);
    GapsFitAppend(t1, SliceNanos(c.window), times, now);
  }

  /** Advancing the boundaries to the next call keeps both counters exact. */
  lemma AdvancedTracks(c: Config, t0: int, t1: int, rt: Runtime, log: seq<Entry>, times: seq<int>, now: int)
    requires IsRun(c, t0, t1, times + [now]) && Tracks(c, t0, t1, rt, log, times) && |log| == |times|
    requires forall i | 0 <= i < |times| :: log[i].time == times[i]
    ensures var a := Advanced(rt, now);
      && Tracks(c, t0, t1, a, log, times + [now])
      && a.lastReset == PeriodStart(t0, c.window, now)
      && (c.strategy.EvenSpreadHourly? ==> a.sliceStart == PeriodStart(t1, SliceNanos(c.window), now))
  {
    NextCall(c, t0, t1, times, now);
    BothAdvance(c, t0, t1, rt, log, LastOr(times, t0), LastOr(times, t1), now);
  }

  lemma BothAdvance(c: Config, t0: int, t1: int, rt: Runtime, log: seq<Entry>, last0: int, last1: int, now: int)
    requires Usable(rt) && rt.window == c.window && rt.strategy == c.strategy
    requires Counts(rt.callsInWindow, rt.lastReset, c.window, t0, log, last0) && GapFits(t0, c.window, last0, now)
    requires forall i | 0 <= i < |log| :: log[i].time <= last0 && log[i].time <= last1
    requires c.strategy.EvenSpreadHourly? ==>
      && rt.sliceDuration == SliceNanos(c.window) && GapFits(t1, SliceNanos(c.window), last1, now)
      && Counts(rt.callsInSlice, rt.sliceStart, SliceNanos(c.window), t1, log, last1)
    ensures var a := Advanced(rt, now);
      && a == rt.(callsInWindow := a.callsInWindow, lastReset := a.lastReset, callsInSlice := a.callsInSlice,
                  sliceStart := a.sliceStart)
      && Counts(a.callsInWindow, a.lastReset, c.window, t0, log, now) && a.lastReset == PeriodStart(t0, c.window, now)
      && (c.strategy.EvenSpreadHourly? ==>
            Counts(a.callsInSlice, a.sliceStart, SliceNanos(c.window), t1, log, now)
            && a.sliceStart == PeriodStart(t1, SliceNanos(c.window), now))
  {
    AdvanceCounts(rt.callsInWindow, rt.lastReset, c.window, t0, log, last0, now);
    if c.strategy.EvenSpreadHourly? {
      AdvanceCounts(rt.callsInSlice, rt.sliceStart, SliceNanos(c.window), t1, log, last1, now);
    }
  }

  lemma RunPrefix(c: Config, t0: int, t1: int, times: seq<int>)
    requires IsRun(c, t0, t1, times) && times != []
    ensures IsRun(c, t0, t1, times[..|times| - 1]) && times[..|times| - 1] + [times[|times| - 1]] == times
  {
    var init, last := times[..|times| - 1], times[|times| - 1];
    assert init + [last] == times;
    GapsFitAppend(t0, c.window, init, last);
    GapsFitAppend(t1, SliceNanos(c.window), init, last);
  }

  /** Answering the call keeps both counters exact. */
  lemma CallTracks(c: Config, t0: int, t1: int, rt: Runtime, log: seq<Entry>, times: seq<int>, now: int)
    requires IsRun(c, t0, t1, times + [now]) && Tracks(c, t0, t1, rt, log, times) && |log| == |times|
    requires forall i | 0 <= i < |times| :: log[i].time == times[i]
    ensures Tracks(c, t0, t1, Call(rt, now).0, log + [Entry(now, Call(rt, now).1)], times + [now])
  {
    AdvancedTracks(c, t0, t1, rt, log, times, now);
    var a := Advanced(rt, now);
    AdmittedAppend(log, Entry(now, Call(rt, now).1), a.lastReset, a.lastReset + c.window);
    AdmittedAppend(log, Entry(now, Call(rt, now).1), a.sliceStart, a.sliceStart + SliceNanos(c.window));
  }

  lemma {:induction false} RunTracks(c: Config, t0: int, t1: int, times: seq<int>)
    requires IsRun(c, t0, t1, times)
    ensures Usable(Created(c, t0, t1))
    ensures var (rt, log) := After(Created(c, t0, t1), times); Tracks(c, t0, t1, rt, log, times)
  {
    if times != [] {
      var init, now := times[..|times| - 1], times[|times| - 1];
      RunPrefix(c, t0, t1, times);
      RunTracks(c, t0, t1, init);
      var (before, log) := After(Created(c, t0, t1), init);
      CallTracks(c, t0, t1, before, log, init, now);
    }
  }

  /** No aligned window admits more than the limit. */
  lemma {:induction false} WindowWithinLimit(c: Config, t0: int, t1: int, times: seq<int>, ws: int)
    requires IsRun(c, t0, t1, times) && Aligned(t0, c.window, ws)
    ensures Usable(Created(c, t0, t1))
    ensures Admitted(After(Created(c, t0, t1), times).1, ws, ws + c.window) <= c.limit
  {
    if times != [] {
      var init, now := times[..|times| - 1], times[|times| - 1];
      RunPrefix(c, t0, t1, times);
      WindowWithinLimit(c, t0, t1, init, ws);
      RunTracks(c, t0, t1, init);
      var (before, log) := After(Created(c, t0, t1), init);
      CallWithinLimit(c, t0, t1, before, log, init, now, ws);
    }
  }

  lemma CallWithinLimit(c: Config, t0: int, t1: int, rt: Runtime, log: seq<Entry>, times: seq<int>, now: int, ws: int)
    requires IsRun(c, t0, t1, times + [now]) && Tracks(c, t0, t1, rt, log, times) && |log| == |times|
    requires forall i | 0 <= i < |times| :: log[i].time == times[i]
    requires Aligned(t0, c.window, ws) && Admitted(log, ws, ws + c.window) <= c.limit
    ensures Admitted(log + [Entry(now, Call(rt, now).1)], ws, ws + c.window) <= c.limit
  {
    AdvancedTracks(c, t0, t1, rt, log, times, now);
    AdmittedAppend(log, Entry(now, Call(rt, now).1), ws, ws + c.window);
    if ws <= now < ws + c.window {
      PeriodUnique(t0, c.window, ws, now);
    }
  }

  /** Under the hourly spread no aligned slice admits more than its share. */
  lemma {:induction false} SliceWithinShare(c: Config, t0: int, t1: int, times: seq<int>, ss: int)
    requires IsRun(c, t0, t1, times) && c.strategy.EvenSpreadHourly? && Aligned(t1, SliceNanos(c.window), ss)
    ensures Usable(Created(c, t0, t1))
    ensures Admitted(After(Created(c, t0, t1), times).1, ss, ss + SliceNanos(c.window)) <= PerSlice(c.limit)
  {
    if times != [] {
      var init, now := times[..|times| - 1], times[|times| - 1];
      RunPrefix(c, t0, t1, times);
      SliceWithinShare(c, t0, t1, init, ss);
      RunTracks(c, t0, t1, init);
      var (before, log) := After(Created(c, t0, t1), init);
      CallWithinShare(c, t0, t1, before, log, init, now, ss);
    }
  }

  lemma CallWithinShare(c: Config, t0: int, t1: int, rt: Runtime, log: seq<Entry>, times: seq<int>, now: int, ss: int)
    requires IsRun(c, t0, t1, times + [now]) && Tracks(c, t0, t1, rt, log, times) && |log| == |times|
    requires forall i | 0 <= i < |times| :: log[i].time == times[i]
    requires c.strategy.EvenSpreadHourly? && Aligned(t1, SliceNanos(c.window), ss)
    requires Admitted(log, ss, ss + SliceNanos(c.window)) <= PerSlice(c.limit)
    ensures Admitted(log + [Entry(now, Call(rt, now).1)], ss, ss + SliceNanos(c.window)) <= PerSlice(c.limit)
  {
    AdvancedTracks(c, t0, t1, rt, log, times, now);
    AdmittedAppend(log, Entry(now, Call(rt, now).1), ss, ss + SliceNanos(c.window));
    if ss <= now < ss + SliceNanos(c.window) {
      PeriodUnique(t1, SliceNanos(c.window), ss, now);
    }
  }

  /**
   * The limiter against its log: a call is admitted iff its aligned window still has room and, under the hourly spread,
   * its aligned slice does too. A refusal reports what is left of the window and the whole milliseconds to the
   * boundary.
   */
  lemma AdmitsExactly(c: Config, t0: int, t1: int, times: seq<int>, now: int)
    requires IsRun(c, t0, t1, times + [now])
    ensures Usable(Created(c, t0, t1)) && t0 <= t1 <= now
    ensures var (rt, log) := After(Created(c, t0, t1), times);
      AdmitsByLog(c, t0, t1, log, now, Call(rt, now).1)
  {
    RunBefore(c, t0, t1, times, now);
    WindowOfCall(c, t0, t1, times, now);
    RunTracks(c, t0, t1, times);
    var (rt, log) := After(Created(c, t0, t1), times);
    CallAdmitsByLog(c, t0, t1, rt, log, times, now);
  }

  lemma WindowOfCall(c: Config, t0: int, t1: int, times: seq<int>, now: int)
    requires IsRun(c, t0, t1, times) && t0 <= now
    ensures Usable(Created(c, t0, t1))
    ensures var ws := PeriodStart(t0, c.window, now);
      Admitted(After(Created(c, t0, t1), times).1, ws, ws + c.window) <= c.limit
  {
    PeriodStartAligned(t0, c.window, now);
    WindowWithinLimit(c, t0, t1, times, PeriodStart(t0, c.window, now));
  }

  lemma RunBefore(c: Config, t0: int, t1: int, times: seq<int>, now: int)
    requires IsRun(c, t0, t1, times + [now])
    ensures IsRun(c, t0, t1, times) && t0 <= t1 <= now && Usable(Created(c, t0, t1))
  {
    var all := times + [now];
    assert all[..|all| - 1] == times && all[|times|] == now;
    RunPrefix(c, t0, t1, all);
  }

  ghost predicate AdmitsByLog(c: Config, t0: int, t1: int, log: seq<Entry>, now: int, result: Result<(), Exceeded>)
    requires c.window > 0 && t0 <= t1 <= now
  {
    var ws, ss := PeriodStart(t0, c.window, now), PeriodStart(t1, SliceNanos(c.window), now);
    var used := Admitted(log, ws, ws + c.window);
    && (result.Ok? <==>
          used < c.limit && (c.strategy.EvenSpreadHourly? ==>
                             Admitted(log, ss, ss + SliceNanos(c.window)) < PerSlice(c.limit)))
    && used <= c.limit
    && (result.Err? ==>
          && result.error.remaining == c.limit - used
          && result.error.resetInMs ==
             Min((if used == c.limit then ws + c.window - now else ss + SliceNanos(c.window) - now) / NANOS_PER_MILLI,
                 U64_MAX))
  }

  function ErrorByCounters(a: Runtime, now: int): Exceeded {
    if a.callsInWindow >= a.limit then Exceeded(0, ResetInMs(a.window, a.lastReset, now))
    else Exceeded(a.limit - a.callsInWindow, ResetInMs(a.sliceDuration, a.sliceStart, now))
  }

  /** The reply to a call, from the counters of the advanced state. */
  lemma CallByCounters(rt: Runtime, now: int)
    requires Usable(rt)
    ensures var a, result := Advanced(rt, now), Call(rt, now).1;
      && (result.Ok? <==>
          a.callsInWindow < a.limit && (a.strategy.EvenSpreadHourly? ==> a.callsInSlice < a.allowedPerSlice))
      && (result.Err? ==> result.error == ErrorByCounters(a, now))
  {
  }

  lemma ResetWithin(period: nat, start: int, now: int)
    requires start <= now < start + period
    ensures ResetInMs(period, start, now) == Min((start + period - now) / NANOS_PER_MILLI, U64_MAX)
  {
  }

  lemma CallAdmitsByLog(c: Config, t0: int, t1: int, rt: Runtime, log: seq<Entry>, times: seq<int>, now: int)
    requires IsRun(c, t0, t1, times + [now]) && Tracks(c, t0, t1, rt, log, times) && |log| == |times| && t1 <= now
    requires forall i | 0 <= i < |times| :: log[i].time == times[i]
    requires Admitted(log, PeriodStart(t0, c.window, now), PeriodStart(t0, c.window, now) + c.window) <= c.limit
    ensures AdmitsByLog(c, t0, t1, log, now, Call(rt, now).1)
  {
    AdvancedTracks(c, t0, t1, rt, log, times, now);
    CallByCounters(rt, now);
    RepliesByLog(c, t0, t1, Advanced(rt, now), log, now, Call(rt, now).1);
  }

  /** Counters that count the current periods make the reply one about the log. */
  lemma RepliesByLog(c: Config, t0: int, t1: int, a: Runtime, log: seq<Entry>, now: int, result: Result<(), Exceeded>)
    requires c.window > 0 && t0 <= t1 <= now && a.limit == c.limit && a.window == c.window && a.strategy == c.strategy
    requires Counts(a.callsInWindow, a.lastReset, c.window, t0, log, now) &&
             a.lastReset == PeriodStart(t0, c.window, now)
    requires c.strategy.EvenSpreadHourly? ==>
      && a.allowedPerSlice == PerSlice(c.limit) && a.sliceDuration == SliceNanos(c.window)
      && Counts(a.callsInSlice, a.sliceStart, SliceNanos(c.window), t1, log, now)
      && a.sliceStart == PeriodStart(t1, SliceNanos(c.window), now)
    requires a.callsInWindow <= c.limit
    requires result.Ok? <==>
             a.callsInWindow < a.limit && (a.strategy.EvenSpreadHourly? ==> a.callsInSlice < a.allowedPerSlice)
    requires result.Err? ==> result.error == ErrorByCounters(a, now)
    ensures AdmitsByLog(c, t0, t1, log, now, result)
  {
    ResetWithin(c.window, a.lastReset, now);
    if c.strategy.EvenSpreadHourly? {
      ResetWithin(SliceNanos(c.window), a.sliceStart, now);
    }
  }

  lemma {:induction false} NothingAdmittedBefore(c: Config, t0: int, t1: int, times: seq<int>, lo: int)
    requires IsRun(c, t0, t1, times) && lo <= t0
    ensures Usable(Created(c, t0, t1))
    ensures Admitted(After(Created(c, t0, t1), times).1, lo, t0) == 0
  {
    if times != [] {
      RunPrefix(c, t0, t1, times);
      NothingAdmittedBefore(c, t0, t1, times[..|times| - 1], lo);
    }
  }

  /** Any interval as long as the window admits at most twice the limit. */
  lemma IntervalWithinTwiceLimit(c: Config, t0: int, t1: int, times: seq<int>, a: int)
    requires IsRun(c, t0, t1, times)
    ensures Usable(Created(c, t0, t1))
    ensures Admitted(After(Created(c, t0, t1), times).1, a, a + c.window) <= 2 * c.limit
  {
    if a < t0 {
      EarlyInterval(c, t0, t1, times, a);
    } else {
      LaterInterval(c, t0, t1, times, a, PeriodStart(t0, c.window, a));
    }
  }

  lemma LaterInterval(c: Config, t0: int, t1: int, times: seq<int>, a: int, ws: int)
    requires IsRun(c, t0, t1, times) && t0 <= a && ws == PeriodStart(t0, c.window, a)
    ensures Usable(Created(c, t0, t1))
    ensures Admitted(After(Created(c, t0, t1), times).1, a, a + c.window) <= 2 * c.limit
  {
    PeriodStartAligned(t0, c.window, a);
    WindowWithinLimit(c, t0, t1, times, ws);
    WindowWithinLimit(c, t0, t1, times, ws + c.window);
    IntervalInTwoWindows(After(Created(c, t0, t1), times).1, c.window, a, ws);
  }

  /** An interval that begins before the limiter does admits at most the limit. */
  lemma EarlyInterval(c: Config, t0: int, t1: int, times: seq<int>, a: int)
    requires IsRun(c, t0, t1, times) && a < t0
    ensures Usable(Created(c, t0, t1))
    ensures Admitted(After(Created(c, t0, t1), times).1, a, a + c.window) <= c.limit
  {
    PeriodStartAligned(t0, c.window, t0);
    WindowWithinLimit(c, t0, t1, times, t0);
    NothingAdmittedBefore(c, t0, t1, times, a);
    IntervalBeforeStart(After(Created(c, t0, t1), times).1, c.window, a, t0);
  }

  lemma IntervalInTwoWindows(log: seq<Entry>, window: nat, a: int, ws: int)
    requires ws <= a < ws + window
    ensures Admitted(log, a, a + window) <=
            Admitted(log, ws, ws + window) + Admitted(log, ws + window, ws + window + window)
  {
    var next := ws + window;
    AdmittedSplits(log, a, next, a + window);
    AdmittedMonotone(log, a, next, ws, next);
    AdmittedMonotone(log, next, a + window, next, next + window);
  }

  lemma IntervalBeforeStart(log: seq<Entry>, window: nat, a: int, t0: int)
    requires a < t0 && Admitted(log, a, t0) == 0
    ensures Admitted(log, a, a + window) <= Admitted(log, t0, t0 + window)
  {
    if a + window <= t0 {
      AdmittedMonotone(log, a, a + window, a, t0);
    } else {
      AdmittedSplits(log, a, t0, a + window);
      AdmittedMonotone(log, t0, a + window, t0, t0 + window);
    }
  }
}

/** The limiter against the sliding window that its configuration speaks of: when the limit holds for every interval. */
module QuotaSliding {
  import opened Wrappers
  import opened Quota

  // ---- Bursts -----------------------------------------------------------------------------

  /** `k` calls at one time. */
  function Burst(now: int, k: nat): seq<int> {
    seq(k, i => now)
  }

  lemma AfterOneMore(rt: Runtime, times: seq<int>, now: int)
    requires Usable(rt)
    ensures var (before, log) := After(rt, times);
      After(rt, times + [now]) == (Call(before, now).0, log + [Entry(now, Call(before, now).1)])
  {
    assert (times + [now])[..|times + [now]| - 1] == times;
  }

  /** The state that a limiter reaches by admitting `k` calls at `now`; before the first it has not yet advanced. */
  function WithBurst(rt: Runtime, now: int, k: nat): Runtime
    requires Usable(rt)
  {
    var a := Advanced(rt, now);
    if k == 0 then rt
    else a.(callsInWindow := a.callsInWindow + k,
            callsInSlice := if a.strategy.EvenSpreadHourly? then a.callsInSlice + k else a.callsInSlice)
  }

  /** At `now` the window, and under the spread the slice, has room for `k` more calls. */
  predicate HasRoom(rt: Runtime, now: int, k: nat)
    requires Usable(rt)
  {
    var a := Advanced(rt, now);
    && a.callsInWindow + k <= a.limit && Elapsed(a.lastReset, now) < a.window
    && (a.strategy.EvenSpreadHourly? ==>
          a.callsInSlice + k <= a.allowedPerSlice && Elapsed(a.sliceStart, now) < a.sliceDuration)
  }

  /** One call of a burst, the j-th, counted from the limiter's state before the burst. */
  lemma BurstCall(rt: Runtime, now: int, j: nat, last: Runtime)
    requires Usable(rt) && HasRoom(rt, now, j + 1)
    requires last == WithBurst(rt, now, j)
    ensures Usable(last) && Call(last, now) == (WithBurst(rt, now, j + 1), Ok(()))
  {
  }

  /** From `before` to `after` a burst of `k` calls was admitted. */
  ghost predicate AddsBurst(before: (Runtime, seq<Entry>), after: (Runtime, seq<Entry>), now: int, k: nat, lo: int,
                            hi: int)
    requires Usable(before.0)
  {
    && Admitted(after.1, lo, hi) == Admitted(before.1, lo, hi) + (if lo <= now < hi then k else 0)
    && after.0 == WithBurst(before.0, now, k)
  }

  lemma BurstGrows(before: (Runtime, seq<Entry>), last: (Runtime, seq<Entry>), now: int, j: nat, lo: int, hi: int)
    requires Usable(before.0) && HasRoom(before.0, now, j + 1) && AddsBurst(before, last, now, j, lo, hi)
    ensures Usable(last.0)
    ensures var (next, result) := Call(last.0, now);
      AddsBurst(before, (next, last.1 + [Entry(now, result)]), now, j + 1, lo, hi)
  {
    BurstCall(before.0, now, j, last.0);
    AdmittedAppend(last.1, Entry(now, Ok(())), lo, hi);
  }

  /** While the window has room, a burst is admitted in full. */
  lemma {:induction false} BurstAdmits(rt: Runtime, times: seq<int>, now: int, k: nat, lo: int, hi: int)
    requires Usable(rt) && HasRoom(After(rt, times).0, now, k)
    ensures AddsBurst(After(rt, times), After(rt, times + Burst(now, k)), now, k, lo, hi)
  {
    BurstLast(times, now, k);
    if k > 0 {
      LessRoom(After(rt, times).0, now, k);
      BurstAdmits(rt, times, now, k - 1, lo, hi);
      BurstOneMore(rt, times, now, k - 1, lo, hi);
    } else {
      NoBurst(After(rt, times), now, lo, hi);
    }
  }

  lemma BurstFromStart(rt: Runtime, now: int, k: nat, lo: int, hi: int)
    requires Usable(rt) && HasRoom(rt, now, k)
    ensures AddsBurst((rt, []), After(rt, Burst(now, k)), now, k, lo, hi)
  {
    assert After(rt, []) == (rt, []);
    BurstAdmits(rt, [], now, k, lo, hi);
    assert [] + Burst(now, k) == Burst(now, k);
  }

  lemma NoBurst(before: (Runtime, seq<Entry>), now: int, lo: int, hi: int)
    requires Usable(before.0)
    ensures AddsBurst(before, before, now, 0, lo, hi)
  {
  }

  lemma BurstLast(times: seq<int>, now: int, k: nat)
    ensures times + Burst(now, k) == if k == 0 then times else times + Burst(now, k - 1) + [now]
  {
  }

  lemma LessRoom(rt: Runtime, now: int, k: nat)
    requires Usable(rt) && HasRoom(rt, now, k) && k > 0
    ensures HasRoom(rt, now, k - 1)
  {
  }

  lemma BurstOneMore(rt: Runtime, times: seq<int>, now: int, j: nat, lo: int, hi: int)
    requires Usable(rt) && HasRoom(After(rt, times).0, now, j + 1)
    requires AddsBurst(After(rt, times), After(rt, times + Burst(now, j)), now, j, lo, hi)
    ensures AddsBurst(After(rt, times), After(rt, times + Burst(now, j) + [now]), now, j + 1, lo, hi)
  {
    BurstGrows(After(rt, times), After(rt, times + Burst(now, j)), now, j, lo, hi);
    AfterOneMore(rt, times + Burst(now, j), now);
  }

  /** The clock never goes back; the gaps between calls may be of any length. */
  ghost predicate IsAnyRun(c: Config, t0: int, t1: int, times: seq<int>) {
    && c.window > 0 && t0 <= t1
    && (forall i | 0 <= i < |times| :: t1 <= times[i])
    && forall i, j | 0 <= i < j < |times| :: times[i] <= times[j]
  }

  /** As many calls as the limit allows just before the window ends, and again when it has ended. */
  function TwoBursts(c: Config): seq<int>
    requires c.window > 0
  {
    Burst(c.window - 1, c.limit) + Burst(c.window, c.limit)
  }

  /** An interval that admits twice the limit, which no interval exceeds. */
  lemma TwiceLimitReached(c: Config)
    requires c.window > 1 && !c.strategy.EvenSpreadHourly?
    ensures IsAnyRun(c, 0, 0, TwoBursts(c)) && (c.window <= U64_MAX ==> IsRun(c, 0, 0, TwoBursts(c)))
    ensures Usable(Created(c, 0, 0))
    ensures var a := c.window - 1; Admitted(After(Created(c, 0, 0), TwoBursts(c)).1, a, a + c.window) == 2 * c.limit
  {
    TwoBurstsAdmitted(c, c.window - 1, c.window - 1 + c.window);
    TwoBurstsRun(c);
  }

  lemma TwoBurstsRun(c: Config)
    requires c.window > 1 && !c.strategy.EvenSpreadHourly?
    ensures IsAnyRun(c, 0, 0, TwoBursts(c)) && (c.window <= U64_MAX ==> IsRun(c, 0, 0, TwoBursts(c)))
  {
    if c.window <= U64_MAX {
      SmallTimesFit(c.window, TwoBursts(c));
    }
  }

  lemma TwoBurstsAdmitted(c: Config, lo: int, hi: int)
    requires c.window > 1 && !c.strategy.EvenSpreadHourly? && lo < c.window < hi
    ensures Usable(Created(c, 0, 0)) && Admitted(After(Created(c, 0, 0), TwoBursts(c)).1, lo, hi) == 2 * c.limit
  {
    var w, rt := c.window, Created(c, 0, 0);
    FirstBurst(c, lo, hi);
    var full := After(rt, Burst(w - 1, c.limit)).0;
    FullWindowEnds(c, full);
    BurstAdmits(rt, Burst(w - 1, c.limit), w, c.limit, lo, hi);
  }

  lemma FirstBurst(c: Config, lo: int, hi: int)
    requires c.window > 1 && !c.strategy.EvenSpreadHourly? && lo < c.window < hi
    ensures Usable(Created(c, 0, 0))
    ensures var (full, log) := After(Created(c, 0, 0), Burst(c.window - 1, c.limit));
      full == Created(c, 0, 0).(callsInWindow := c.limit) && Admitted(log, lo, hi) == c.limit
  {
    var w, rt := c.window, Created(c, 0, 0);
    assert Advanced(rt, w - 1) == rt;
    BurstFromStart(rt, w - 1, c.limit, lo, hi);
  }

  lemma FullWindowEnds(c: Config, rt: Runtime)
    requires c.window > 0 && !c.strategy.EvenSpreadHourly? && rt == Created(c, 0, 0).(callsInWindow := c.limit)
    ensures Usable(rt) && HasRoom(rt, c.window, c.limit)
  {
    assert WholePeriods(c.window, c.window) == c.window + WholePeriods(0, c.window);
  }

  /** Among times that fit in 64 bits every gap fits. */
  lemma {:induction false} SmallTimesFit(period: nat, times: seq<int>)
    requires period > 0 && (forall i | 0 <= i < |times| :: 0 <= times[i] <= U64_MAX)
    requires forall i, j | 0 <= i < j < |times| :: times[i] <= times[j]
    ensures GapsFit(0, period, times)
  {
    if times != [] {
      var init := times[..|times| - 1];
      SmallTimesFit(period, init);
      assert init != [] ==> init[|init| - 1] == times[|init| - 1];
    }
  }

  // ---- When the limit slides --------------------------------------------------------------

  /** In every run no interval as long as the window admits more than the limit. */
  ghost predicate Slides(c: Config) {
    forall t0, t1, times, a | IsRun(c, t0, t1, times) :: WithinLimit(c, t0, t1, times, a)
  }

  /** The same for runs whose gaps may be of any length. */
  ghost predicate SlidesOverAnyGap(c: Config) {
    forall t0, t1, times, a | IsAnyRun(c, t0, t1, times) :: WithinLimit(c, t0, t1, times, a)
  }

  ghost predicate WithinLimit(c: Config, t0: int, t1: int, times: seq<int>, a: int) {
    Usable(Created(c, t0, t1)) ==> Admitted(After(Created(c, t0, t1), times).1, a, a + c.window) <= c.limit
  }

  /** A window of one nanosecond is aligned wherever it begins. */
  lemma OneNanoAligned(origin: int, a: int)
    requires origin <= a
    ensures Aligned(origin, 1, a)
  {
    WholePeriodsByDivision(a - origin, 1);
  }

  lemma OneNanoWindow(c: Config, t0: int, t1: int, times: seq<int>, a: int)
    requires c.window == 1 && IsRun(c, t0, t1, times)
    ensures WithinLimit(c, t0, t1, times, a)
  {
    if a < t0 {
      EarlyInterval(c, t0, t1, times, a);
    } else {
      OneNanoAligned(t0, a);
      WindowWithinLimit(c, t0, t1, times, a);
    }
  }

  /** If no gap that fits reaches the next window, a run never leaves the first one. */
  lemma {:induction false} StaysInFirst(origin: int, period: nat, times: seq<int>)
    requires period > U64_MAX && GapsFit(origin, period, times)
    ensures forall i | 0 <= i < |times| :: origin <= times[i] < origin + period
  {
    if times != [] {
      var init, now := times[..|times| - 1], times[|times| - 1];
      var last := LastOr(init, origin);
      StaysInFirst(origin, period, init);
      assert WholePeriods(last - origin, period) == 0;
      assert WholePeriods(now - origin, period) < period;
      assert now < origin + period;
    }
  }

  lemma {:induction false} AllInside(log: seq<Entry>, lo: int, hi: int, a: int, b: int)
    requires forall i | 0 <= i < |log| :: lo <= log[i].time < hi
    ensures Admitted(log, a, b) <= Admitted(log, lo, hi)
  {
    if log != [] {
      AllInside(log[..|log| - 1], lo, hi, a, b);
    }
  }

  lemma HugeWindow(c: Config, t0: int, t1: int, times: seq<int>, a: int)
    requires c.window > U64_MAX && IsRun(c, t0, t1, times)
    ensures WithinLimit(c, t0, t1, times, a)
  {
    StaysInFirst(t0, c.window, times);
    PeriodStartAligned(t0, c.window, t0);
    WindowWithinLimit(c, t0, t1, times, t0);
    AllInside(After(Created(c, t0, t1), times).1, t0, t0 + c.window, a, a + c.window);
  }

  /**
   * Without the spread the limit holds for every interval as long as the window iff it is zero, or the window is a
   * single nanosecond, or so long that no gap of 64 bits reaches the next one.
   */
  lemma SlidesIff(c: Config)
    requires c.window > 0 && !c.strategy.EvenSpreadHourly?
    ensures Slides(c) <==> c.limit == 0 || c.window == 1 || c.window > U64_MAX
  {
    if c.limit == 0 || c.window == 1 || c.window > U64_MAX {
      forall t0, t1, times, a | IsRun(c, t0, t1, times) ensures WithinLimit(c, t0, t1, times, a) {
        KeepsSliding(c, t0, t1, times, a);
      }
    } else {
      BurstsExceed(c);
    }
  }

  lemma KeepsSliding(c: Config, t0: int, t1: int, times: seq<int>, a: int)
    requires IsRun(c, t0, t1, times) && (c.limit == 0 || c.window == 1 || c.window > U64_MAX)
    ensures WithinLimit(c, t0, t1, times, a)
  {
    if c.limit == 0 {
      IntervalWithinTwiceLimit(c, t0, t1, times, a);
    } else if c.window == 1 {
      OneNanoWindow(c, t0, t1, times, a);
    } else {
      HugeWindow(c, t0, t1, times, a);
    }
  }

  lemma BurstsExceed(c: Config)
    requires c.limit > 0 && c.window > 1 && !c.strategy.EvenSpreadHourly?
    ensures !WithinLimit(c, 0, 0, TwoBursts(c), c.window - 1)
    ensures IsAnyRun(c, 0, 0, TwoBursts(c)) && (c.window <= U64_MAX ==> IsRun(c, 0, 0, TwoBursts(c)))
  {
    TwiceLimitReached(c);
  }

  /**
   * A limit of one per ten nanoseconds: the calls at 9 and at 10 are both admitted, although less than a window apart.
   */
  lemma TwoCallsInOneWindow()
    ensures var c := Config(1, 10, Unit);
      && IsRun(c, 0, 0, [9, 10]) && Usable(Created(c, 0, 0))
      && Admitted(After(Created(c, 0, 0), [9, 10]).1, 9, 19) == 2
  {
    var c := Config(1, 10, Unit);
    assert TwoBursts(c) == [9, 10];
    TwiceLimitReached(c);
  }

  // ---- Gaps of any length -----------------------------------------------------------------

  lemma {:induction false} ZeroLimitAdmitsNothing(rt: Runtime, times: seq<int>, lo: int, hi: int)
    requires Usable(rt) && rt.limit == 0
    ensures After(rt, times).0.limit == 0 && Admitted(After(rt, times).1, lo, hi) == 0
  {
    if times != [] {
      ZeroLimitAdmitsNothing(rt, times[..|times| - 1], lo, hi);
      var (before, log) := After(rt, times[..|times| - 1]);
      var now := times[|times| - 1];
      AdmittedAppend(log, Entry(now, Call(before, now).1), lo, hi);
    }
  }

  /**
   * Far behind the clock, the boundary of a one-nanosecond window needs two calls to catch up: one call too many is
   * admitted.
   */
  lemma CatchingUpAdmitsMore(c: Config)
    requires c.window == 1 && c.limit > 0 && !c.strategy.EvenSpreadHourly?
    ensures var now := 2 * U64_MAX; var times := Burst(now, 1) + Burst(now, c.limit);
      && IsAnyRun(c, 0, 0, times) && Usable(Created(c, 0, 0))
      && Admitted(After(Created(c, 0, 0), times).1, now, now + 1) == c.limit + 1
  {
    CatchingUp(c);
    OneMoreBurst(c, 2 * U64_MAX);
  }

  lemma OneMoreBurst(c: Config, now: int)
    requires now >= 0 && c.window == 1 && Usable(Created(c, 0, 0))
    requires var (first, log) := After(Created(c, 0, 0), Burst(now, 1));
      HasRoom(first, now, c.limit) && Admitted(log, now, now + 1) == 1
    ensures var times := Burst(now, 1) + Burst(now, c.limit);
      IsAnyRun(c, 0, 0, times) && Admitted(After(Created(c, 0, 0), times).1, now, now + 1) == c.limit + 1
  {
    BurstTwiceRuns(c, now);
    BurstAdmits(Created(c, 0, 0), Burst(now, 1), now, c.limit, now, now + 1);
  }

  lemma BurstTwiceRuns(c: Config, now: int)
    requires now >= 0 && c.window > 0
    ensures IsAnyRun(c, 0, 0, Burst(now, 1) + Burst(now, c.limit))
  {
  }

  lemma CatchingUp(c: Config)
    requires c.window == 1 && c.limit > 0 && !c.strategy.EvenSpreadHourly?
    ensures Usable(Created(c, 0, 0))
    ensures var now := 2 * U64_MAX; var (first, log) := After(Created(c, 0, 0), Burst(now, 1));
      HasRoom(first, now, c.limit) && Admitted(log, now, now + 1) == 1
  {
    var now, rt := 2 * U64_MAX, Created(c, 0, 0);
    FirstCatchesUp(c);
    assert Burst(now, 1) == [] + [now] && After(rt, []) == (rt, []);
    AfterOneMore(rt, [], now);
    AdmittedAppend([], Entry(now, Ok(())), now, now + 1);
  }

  lemma FirstCatchesUp(c: Config)
    requires c.window == 1 && c.limit > 0 && !c.strategy.EvenSpreadHourly?
    ensures var now, rt := 2 * U64_MAX, Created(c, 0, 0); var first := rt.(callsInWindow := 1, lastReset := U64_MAX);
      Usable(rt) && Call(rt, now) == (first, Ok(())) && HasRoom(first, now, c.limit)
  {
    WholePeriodsByDivision(2 * U64_MAX, 1);
    WholePeriodsByDivision(U64_MAX, 1);
  }

  /** If gaps may be of any length, no positive limit holds for every interval. */
  lemma SlidesOverAnyGapIff(c: Config)
    requires c.window > 0 && !c.strategy.EvenSpreadHourly?
    ensures SlidesOverAnyGap(c) <==> c.limit == 0
  {
    if c.limit == 0 {
      forall t0, t1, times, a | IsAnyRun(c, t0, t1, times) ensures WithinLimit(c, t0, t1, times, a) {
        ZeroLimitAdmitsNothing(Created(c, t0, t1), times, a, a + c.window);
      }
    } else if c.window > 1 {
      BurstsExceed(c);
    } else {
      CatchingUpAdmitsMore(c);
      var now := 2 * U64_MAX;
      assert !WithinLimit(c, 0, 0, Burst(now, 1) + Burst(now, c.limit), now);
    }
  }
}

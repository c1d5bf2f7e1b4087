/** The sliding window under the hourly spread, when the window is made of 24 whole slices. */
module QuotaSpread {
  import opened Wrappers
  import opened Quota
  import opened QuotaSliding

  /** Under the spread, and the window is exactly its 24 slices: a whole number of 24 milliseconds. */
  predicate Regular(c: Config) {
    c.strategy.EvenSpreadHourly? && c.window == 24 * SliceNanos(c.window)
  }

  // ---- At most 25 shares ------------------------------------------------------------------

  /** The start of the k-th slice after `start`. */
  function SliceAt(start: int, d: nat, k: nat): int {
    if k == 0 then start else SliceAt(start, d, k - 1) + d
  }

  function Shares(share: nat, k: nat): nat {
    if k == 0 then 0 else Shares(share, k - 1) + share
  }

  lemma {:induction false} SliceAtProduct(start: int, d: nat, k: nat)
    ensures SliceAt(start, d, k) == start + k * d
  {
    if k > 0 {
      SliceAtProduct(start, d, k - 1);
      OneMorePeriod(k - 1, d);
    }
  }

  lemma {:induction false} SharesProduct(share: nat, k: nat)
    ensures Shares(share, k) == k * share
  {
    if k > 0 {
      SharesProduct(share, k - 1);
      OneMorePeriod(k - 1, share);
    }
  }

  lemma NextAligned(origin: int, d: nat, start: int)
    requires Aligned(origin, d, start)
    ensures Aligned(origin, d, start + d)
  {
    PeriodStartAligned(origin, d, start);
  }

  /** `k` slices in a row admit at most `k` shares. */
  lemma {:induction false} SlicesWithinShares(c: Config, t0: int, t1: int, times: seq<int>, ss: int, k: nat)
    requires IsRun(c, t0, t1, times) && c.strategy.EvenSpreadHourly? && Aligned(t1, SliceNanos(c.window), ss)
    ensures Usable(Created(c, t0, t1)) && Aligned(t1, SliceNanos(c.window), SliceAt(ss, SliceNanos(c.window), k))
    ensures SliceAt(ss, SliceNanos(c.window), k) >= ss
    ensures Admitted(After(Created(c, t0, t1), times).1, ss, SliceAt(ss, SliceNanos(c.window), k))
            <= Shares(PerSlice(c.limit), k)
  {
    var d := SliceNanos(c.window);
    SliceWithinShare(c, t0, t1, times, ss);
    var log := After(Created(c, t0, t1), times).1;
    if k == 0 {
      EmptyInterval(log, ss);
    } else {
      SlicesWithinShares(c, t0, t1, times, ss, k - 1);
      OneMoreSlice(c, t0, t1, times, ss, SliceAt(ss, d, k - 1));
    }
  }

  lemma OneMoreSlice(c: Config, t0: int, t1: int, times: seq<int>, ss: int, mid: int)
    requires IsRun(c, t0, t1, times) && c.strategy.EvenSpreadHourly?
    requires Aligned(t1, SliceNanos(c.window), mid) && ss <= mid
    ensures Usable(Created(c, t0, t1)) && Aligned(t1, SliceNanos(c.window), mid + SliceNanos(c.window))
    ensures var log := After(Created(c, t0, t1), times).1;
      Admitted(log, ss, mid + SliceNanos(c.window)) <= Admitted(log, ss, mid) + PerSlice(c.limit)
  {
    NextAligned(t1, SliceNanos(c.window), mid);
    SliceWithinShare(c, t0, t1, times, mid);
    AdmittedSplits(After(Created(c, t0, t1), times).1, ss, mid, mid + SliceNanos(c.window));
  }

  lemma {:induction false} EmptyInterval(log: seq<Entry>, a: int)
    ensures Admitted(log, a, a) == 0
  {
    if log != [] {
      EmptyInterval(log[..|log| - 1], a);
    }
  }

  lemma {:induction false} NothingBefore(log: seq<Entry>, a: int, t: int)
    requires forall i | 0 <= i < |log| :: t <= log[i].time
    ensures Admitted(log, a, t) == 0
  {
    if log != [] {
      NothingBefore(log[..|log| - 1], a, t);
    }
  }

  /** An interval as long as the window meets at most 25 slices. */
  lemma IntervalWithinShares(c: Config, t0: int, t1: int, times: seq<int>, a: int)
    requires IsRun(c, t0, t1, times) && Regular(c)
    ensures Usable(Created(c, t0, t1))
    ensures Admitted(After(Created(c, t0, t1), times).1, a, a + c.window) <= 25 * PerSlice(c.limit)
  {
    var d := SliceNanos(c.window);
    var first := if a < t1 then t1 else a;
    var ss := PeriodStart(t1, d, first);
    PeriodStartAligned(t1, d, first);
    SlicesWithinShares(c, t0, t1, times, ss, 25);
    SliceAtProduct(ss, d, 25);
    SharesProduct(PerSlice(c.limit), 25);
    IntervalMeetsSlices(After(Created(c, t0, t1), times).1, a, t1, ss, d);
  }

  lemma IntervalMeetsSlices(log: seq<Entry>, a: int, t1: int, ss: int, d: nat)
    requires forall i | 0 <= i < |log| :: t1 <= log[i].time
    requires if a < t1 then ss == t1 else ss <= a < ss + d
    ensures Admitted(log, a, a + 24 * d) <= Admitted(log, ss, ss + 25 * d)
  {
    if a < t1 {
      NothingBefore(log, a, t1);
      if a + 24 * d <= t1 {
        AdmittedMonotone(log, a, a + 24 * d, a, t1);
      } else {
        AdmittedSplits(log, a, t1, a + 24 * d);
        AdmittedMonotone(log, t1, a + 24 * d, ss, ss + 25 * d);
      }
    } else {
      AdmittedMonotone(log, a, a + 24 * d, ss, ss + 25 * d);
    }
  }

  // ---- One share too many -----------------------------------------------------------------

  /** The first slice of the climb: as late as possible, so that the window's limit is not reached before its end. */
  function FirstSlice(limit: nat): (q: nat)
    ensures q < 24 || limit == 0
  {
    if limit < 24 then 24 - limit else 0
  }

  /** A share at the end of slice `q`, and one at the start of each later slice, up to slice `i`. */
  function Climb(share: nat, d: nat, q: nat, i: nat): seq<int>
    requires q <= i
    decreases i - q
  {
    if i == q then Burst(SliceAt(0, d, q + 1) - 1, share)
        else Climb(share, d, q, i - 1) + Burst(SliceAt(0, d, i), share)
  }

  lemma {:induction false} SlicesGrow(d: nat, i: nat, j: nat)
    requires i <= j
    ensures 0 <= SliceAt(0, d, i) <= SliceAt(0, d, j)
    decreases j
  {
    if i < j {
      SlicesGrow(d, i, j - 1);
    } else if i > 0 {
      SlicesGrow(d, i - 1, i - 1);
    }
  }

  ghost predicate AscendsTo(times: seq<int>, last: int) {
    && (forall x | 0 <= x < |times| :: 0 <= times[x] <= last)
    && (forall x, y | 0 <= x < y < |times| :: times[x] <= times[y])
  }

  lemma AscendsFurther(times: seq<int>, last: int, now: int, k: nat)
    requires AscendsTo(times, last) && 0 <= now && last <= now
    ensures AscendsTo(times + Burst(now, k), now)
  {
  }

  lemma {:induction false} ClimbTimes(share: nat, d: nat, q: nat, i: nat)
    requires q <= i && d > 0
    ensures AscendsTo(Climb(share, d, q, i), if i == q then SliceAt(0, d, q + 1) - 1 else SliceAt(0, d, i))
    decreases i - q
  {
    SlicesGrow(d, q, q);
    if i == q {
      AscendsFurther([], 0, SliceAt(0, d, q + 1) - 1, share);
      assert [] + Burst(SliceAt(0, d, q + 1) - 1, share) == Burst(SliceAt(0, d, q + 1) - 1, share);
    } else {
      var last := if i - 1 == q then SliceAt(0, d, q + 1) - 1 else SliceAt(0, d, i - 1);
      ClimbTimes(share, d, q, i - 1);
      SlicesGrow(d, i - 1, i);
      AscendsFurther(Climb(share, d, q, i - 1), last, SliceAt(0, d, i), share);
    }
  }

  /** While the climb stays in the first window, the limiter has admitted all of it. */
  ghost predicate Climbed(c: Config, q: nat, i: nat, r: (Runtime, seq<Entry>), lo: int, hi: int)
    requires q <= i
  {
    var share := PerSlice(c.limit);
    && r.0 == Created(c, 0, 0).(callsInWindow := Shares(share, i - q + 1), callsInSlice := share,
                                sliceStart := SliceAt(0, SliceNanos(c.window), i))
    && Admitted(r.1, lo, hi) == Shares(share, i - q + 1)
  }

  lemma {:induction false} LastNanoOfSlice(d: nat, q: nat)
    requires d > 0
    ensures SliceAt(0, d, q + 1) > 0 && WholePeriods(SliceAt(0, d, q + 1) - 1, d) == SliceAt(0, d, q)
  {
    SlicesGrow(d, 0, q);
    if q > 0 {
      LastNanoOfSlice(d, q - 1);
    }
  }

  lemma OnePeriod(d: nat)
    requires 0 < d <= U64_MAX
    ensures BoundaryOffset(d, d) == d
  {
    assert WholePeriods(d, d) == d + WholePeriods(0, d);
  }

  /** What the climb needs: slices of the window, a limit, and times that fit in 64 bits. */
  predicate CanClimb(c: Config, q: nat) {
    && Regular(c) && 0 < c.limit && c.window <= U64_MAX && q == FirstSlice(c.limit)
  }

  lemma ShareFits(limit: nat)
    requires limit > 0
    ensures PerSlice(limit) <= limit && Shares(PerSlice(limit), 24 - FirstSlice(limit)) <= limit
  {
    SharesProduct(PerSlice(limit), 24 - FirstSlice(limit));
  }

  lemma {:induction false} SharesGrow(share: nat, j: nat, k: nat)
    requires j <= k
    ensures Shares(share, j) <= Shares(share, k)
    decreases k
  {
    if j < k {
      SharesGrow(share, j, k - 1);
    }
  }

  /** Slice `i` begins within the first window, if it is not its end. */
  lemma WithinWindow(c: Config, i: nat)
    requires Regular(c) && i <= 24
    ensures 0 <= SliceAt(0, SliceNanos(c.window), i) <= c.window
    ensures i < 24 ==> SliceAt(0, SliceNanos(c.window), i + 1) <= c.window
    ensures i == 24 ==> SliceAt(0, SliceNanos(c.window), i) == c.window
  {
    var d := SliceNanos(c.window);
    SliceAtProduct(0, d, 24);
    SlicesGrow(d, i, 24);
    if i < 24 {
      SlicesGrow(d, i + 1, 24);
    }
  }

  lemma FirstRoom(c: Config, q: nat)
    requires CanClimb(c, q)
    ensures Usable(Created(c, 0, 0))
    ensures var rt, d := Created(c, 0, 0), SliceNanos(c.window); var now := SliceAt(0, d, q + 1) - 1;
      && HasRoom(rt, now, PerSlice(c.limit))
      && Advanced(rt, now) == rt.(sliceStart := SliceAt(0, d, q))
  {
    LastNanoOfSlice(SliceNanos(c.window), q);
    WithinWindow(c, q);
    ShareFits(c.limit);
  }

  /** From slice to slice the counter of the slice starts anew. */
  lemma NextRoom(c: Config, q: nat, i: nat, rt: Runtime)
    requires CanClimb(c, q) && q < i < 24
    requires rt == Created(c, 0, 0).(callsInWindow := Shares(PerSlice(c.limit), i - q),
                                     callsInSlice := PerSlice(c.limit),
                                     sliceStart := SliceAt(0, SliceNanos(c.window), i - 1))
    ensures Usable(rt)
    ensures var now := SliceAt(0, SliceNanos(c.window), i);
      && HasRoom(rt, now, PerSlice(c.limit))
      && Advanced(rt, now) == rt.(callsInSlice := 0, sliceStart := now)
  {
    WithinWindow(c, i);
    OnePeriod(SliceNanos(c.window));
    ShareFits(c.limit);
    SharesGrow(PerSlice(c.limit), i - q + 1, 24 - q);
  }

  /** When the window has ended, its counter starts anew as well. */
  lemma LastRoom(c: Config, q: nat, rt: Runtime)
    requires CanClimb(c, q)
    requires rt == Created(c, 0, 0).(callsInWindow := Shares(PerSlice(c.limit), 24 - q),
                                     callsInSlice := PerSlice(c.limit),
                                     sliceStart := SliceAt(0, SliceNanos(c.window), 23))
    ensures Usable(rt) && HasRoom(rt, SliceAt(0, SliceNanos(c.window), 24), PerSlice(c.limit))
  {
    WithinWindow(c, 24);
    WithinWindow(c, 23);
    OnePeriod(SliceNanos(c.window));
    OnePeriod(c.window);
    ShareFits(c.limit);
  }

  lemma ClimbBegins(c: Config, q: nat, lo: int, hi: int)
    requires CanClimb(c, q) && lo == SliceAt(0, SliceNanos(c.window), q + 1) - 1 && hi == lo + c.window
    ensures Usable(Created(c, 0, 0))
    ensures Climbed(c, q, q, After(Created(c, 0, 0), Burst(lo, PerSlice(c.limit))), lo, hi)
  {
    var rt, share := Created(c, 0, 0), PerSlice(c.limit);
    FirstRoom(c, q);
    BurstFromStart(rt, lo, share, lo, hi);
    assert Shares(share, 1) == Shares(share, 0) + share;
  }

  lemma ClimbGoesOn(c: Config, q: nat, i: nat, before: (Runtime, seq<Entry>), after: (Runtime, seq<Entry>), lo: int,
                    hi: int)
    requires CanClimb(c, q) && q < i < 24 && Climbed(c, q, i - 1, before, lo, hi) && Usable(before.0)
    requires lo == SliceAt(0, SliceNanos(c.window), q + 1) - 1 && hi == lo + c.window
    requires AddsBurst(before, after, SliceAt(0, SliceNanos(c.window), i), PerSlice(c.limit), lo, hi)
    ensures Climbed(c, q, i, after, lo, hi)
  {
    NextRoom(c, q, i, before.0);
    InInterval(c, q, i);
    assert Shares(PerSlice(c.limit), i - q + 1) == Shares(PerSlice(c.limit), i - q) + PerSlice(c.limit);
  }

  /** The later slices begin within one window of the end of slice `q`. */
  lemma InInterval(c: Config, q: nat, i: nat)
    requires Regular(c) && q < i <= 24
    ensures var first := SliceAt(0, SliceNanos(c.window), q + 1) - 1;
      first <= SliceAt(0, SliceNanos(c.window), i) < first + c.window
  {
    var d := SliceNanos(c.window);
    SlicesGrow(d, q + 1, i);
    SlicesGrow(d, 1, q + 1);
    assert SliceAt(0, d, 1) == SliceAt(0, d, 0) + d;
    WithinWindow(c, i);
  }

  lemma {:induction false} ClimbAdmits(c: Config, q: nat, i: nat, lo: int, hi: int)
    requires CanClimb(c, q) && q <= i < 24
    requires lo == SliceAt(0, SliceNanos(c.window), q + 1) - 1 && hi == lo + c.window
    ensures Usable(Created(c, 0, 0))
    ensures Climbed(c, q, i, After(Created(c, 0, 0), Climb(PerSlice(c.limit), SliceNanos(c.window), q, i)), lo, hi)
    decreases i
  {
    var rt, d, share := Created(c, 0, 0), SliceNanos(c.window), PerSlice(c.limit);
    if i == q {
      ClimbBegins(c, q, lo, hi);
    } else {
      ClimbAdmits(c, q, i - 1, lo, hi);
      var before := Climb(share, d, q, i - 1);
      NextRoom(c, q, i, After(rt, before).0);
      BurstAdmits(rt, before, SliceAt(0, d, i), share, lo, hi);
      ClimbGoesOn(c, q, i, After(rt, before), After(rt, before + Burst(SliceAt(0, d, i), share)), lo, hi);
    }
  }

  /** An interval that admits a share in each slice from `q` on to the first one of the next window. */
  lemma ClimbExceeds(c: Config, q: nat, a: int)
    requires CanClimb(c, q) && 25 * PerSlice(c.limit) > c.limit && a == SliceAt(0, SliceNanos(c.window), q + 1) - 1
    ensures !WithinLimit(c, 0, 0, Climb(PerSlice(c.limit), SliceNanos(c.window), q, 24), a)
  {
    ClimbArrives(c, q, a, a + c.window);
    TooManyShares(c.limit);
    ExceedsLimit(c, Climb(PerSlice(c.limit), SliceNanos(c.window), q, 24), a);
  }

  lemma ExceedsLimit(c: Config, times: seq<int>, a: int)
    requires Usable(Created(c, 0, 0)) && Admitted(After(Created(c, 0, 0), times).1, a, a + c.window) > c.limit
    ensures !WithinLimit(c, 0, 0, times, a)
  {
  }

  lemma TooManyShares(limit: nat)
    requires 0 < limit < 25 * PerSlice(limit)
    ensures Shares(PerSlice(limit), 25 - FirstSlice(limit)) > limit
  {
    SharesProduct(PerSlice(limit), 25 - FirstSlice(limit));
  }

  lemma ClimbArrives(c: Config, q: nat, lo: int, hi: int)
    requires CanClimb(c, q) && lo == SliceAt(0, SliceNanos(c.window), q + 1) - 1 && hi == lo + c.window
    ensures Usable(Created(c, 0, 0))
    ensures Admitted(After(Created(c, 0, 0), Climb(PerSlice(c.limit), SliceNanos(c.window), q, 24)).1, lo, hi)
            == Shares(PerSlice(c.limit), 25 - q)
  {
    LastBurst(c, q, 24, lo, hi);
  }

  lemma LastBurst(c: Config, q: nat, i: nat, lo: int, hi: int)
    requires CanClimb(c, q) && i == 24
    requires lo == SliceAt(0, SliceNanos(c.window), q + 1) - 1 && hi == lo + c.window
    ensures Usable(Created(c, 0, 0))
    ensures Admitted(After(Created(c, 0, 0), Climb(PerSlice(c.limit), SliceNanos(c.window), q, i)).1, lo, hi)
            == Shares(PerSlice(c.limit), i - q + 1)
  {
    var rt, d, share := Created(c, 0, 0), SliceNanos(c.window), PerSlice(c.limit);
    var before := Climb(share, d, q, i - 1);
    ClimbAdmits(c, q, i - 1, lo, hi);
    LastRoom(c, q, After(rt, before).0);
    BurstAdmits(rt, before, SliceAt(0, d, i), share, lo, hi);
    ClimbEnds(c, q, i, After(rt, before), After(rt, before + Burst(SliceAt(0, d, i), share)), lo, hi);
  }

  lemma ClimbEnds(c: Config, q: nat, i: nat, before: (Runtime, seq<Entry>), after: (Runtime, seq<Entry>), lo: int,
                  hi: int)
    requires CanClimb(c, q) && i == 24 && Climbed(c, q, i - 1, before, lo, hi) && Usable(before.0)
    requires lo == SliceAt(0, SliceNanos(c.window), q + 1) - 1 && hi == lo + c.window
    requires AddsBurst(before, after, SliceAt(0, SliceNanos(c.window), i), PerSlice(c.limit), lo, hi)
    ensures Admitted(after.1, lo, hi) == Shares(PerSlice(c.limit), i - q + 1)
  {
    InInterval(c, q, i);
    assert Shares(PerSlice(c.limit), i - q + 1) == Shares(PerSlice(c.limit), i - q) + PerSlice(c.limit);
  }

  lemma ClimbRuns(c: Config, q: nat)
    requires CanClimb(c, q)
    ensures IsRun(c, 0, 0, Climb(PerSlice(c.limit), SliceNanos(c.window), q, 24))
  {
    var d := SliceNanos(c.window);
    var times := Climb(PerSlice(c.limit), d, q, 24);
    ClimbTimes(PerSlice(c.limit), d, q, 24);
    WithinWindow(c, 24);
    SmallTimesFit(c.window, times);
    SmallTimesFit(d, times);
  }

  /**
   * Under the spread, with a window of 24 whole slices, the limit holds for every interval as long as the window iff it
   * is zero, or 25 shares do not exceed it, or no gap of 64 bits reaches the next window.
   */
  lemma SpreadSlidesIff(c: Config)
    requires Regular(c)
    ensures Slides(c) <==> c.limit == 0 || 25 * PerSlice(c.limit) <= c.limit || c.window > U64_MAX
  {
    if c.limit == 0 || 25 * PerSlice(c.limit) <= c.limit || c.window > U64_MAX {
      forall t0, t1, times, a | IsRun(c, t0, t1, times) ensures WithinLimit(c, t0, t1, times, a) {
        KeepsSpreadSliding(c, t0, t1, times, a);
      }
    } else {
      var q, d := FirstSlice(c.limit), SliceNanos(c.window);
      ClimbExceeds(c, q, SliceAt(0, d, q + 1) - 1);
      ClimbRuns(c, q);
    }
  }

  lemma KeepsSpreadSliding(c: Config, t0: int, t1: int, times: seq<int>, a: int)
    requires IsRun(c, t0, t1, times) && Regular(c)
    requires c.limit == 0 || 25 * PerSlice(c.limit) <= c.limit || c.window > U64_MAX
    ensures WithinLimit(c, t0, t1, times, a)
  {
    if c.limit == 0 {
      IntervalWithinTwiceLimit(c, t0, t1, times, a);
    } else if c.window > U64_MAX {
      HugeWindow(c, t0, t1, times, a);
    } else {
      IntervalWithinShares(c, t0, t1, times, a);
    }
  }
}

/**
 * Choosing the interval to fetch when a provider does not support the requested one, and the resampling that makes up
 * for it.
 */
module Intervals {
  import opened Wrappers
  import opened Candles
  import opened Sorting
  import opened Resample
  import opened Buckets

  type Positive = x: int | x > 0 witness 1

  datatype Interval = InSeconds(s: Positive) | InMinutes(m: Positive) | D1 | W1 | Calendar(id: nat)

  function MinutesOf(iv: Interval): Option<Positive> {
    if iv.InMinutes? then Some(iv.m) else None
  }

  /** The length in minutes, also of an interval given in seconds that are whole minutes. */
  function WholeMinutes(iv: Interval): Option<Positive> {
    match iv
    case InMinutes(m) => Some(m)
    case InSeconds(s) => if s % 60 == 0 then Some(s / 60) else None
    case _ => None
  }

  predicate Divides(m: Positive, n: Positive) {
    n % m == 0
  }

  /** The interval's length divides `n` minutes, so is at most `n`. */
  predicate Fits(iv: Interval, n: Positive) {
    WholeMinutes(iv).Some? && WholeMinutes(iv).value <= n && Divides(WholeMinutes(iv).value, n)
  }

  /** `iv` is a supported interval whose length divides `n` minutes. */
  predicate IsDivisor(supported: seq<Interval>, iv: Interval, n: Positive) {
    iv in supported && WholeMinutes(iv).Some? && Divides(WholeMinutes(iv).value, n)
  }

  /** Among the supported divisors none is longer. */
  ghost predicate IsLargestDivisor(supported: seq<Interval>, iv: Interval, n: Positive) {
    IsDivisor(supported, iv, n) &&
    forall other | IsDivisor(supported, other, n) :: WholeMinutes(other).value <= WholeMinutes(iv).value
  }

  ghost predicate IsCoarsestIntraday(supported: seq<Interval>, iv: Interval) {
    iv in supported && iv.InMinutes? && forall other | other in supported && other.InMinutes? :: other.m <= iv.m
  }

  datatype Choice = Choice(effective: Interval, plan: Option<Plan>)

  /** What may be chosen; nothing if the provider cannot serve the request at all. */
  ghost predicate Chosen(supported: seq<Interval>, requested: Interval, r: Option<Choice>) {
    if requested in supported then r == Some(Choice(requested, None))
    else if WholeMinutes(requested).Some? then
      var n := WholeMinutes(requested).value;
      if r.Some? then IsLargestDivisor(supported, r.value.effective, n) && r.value.plan == Some(Minutes(n))
      else NoDivisor(supported, n)
    else match requested
      case D1 => ChosenIntraday(supported, Daily, r)
      case W1 => if D1 in supported then r == Some(Choice(D1, Some(Weekly))) else ChosenIntraday(supported, Weekly, r)
      case _ => r == Some(Choice(requested, None))
  }

  ghost predicate ChosenIntraday(supported: seq<Interval>, plan: Plan, r: Option<Choice>) {
    if r.Some? then IsCoarsestIntraday(supported, r.value.effective) && r.value.plan == Some(plan)
    else forall iv | iv in supported :: !iv.InMinutes?
  }

  ghost predicate NoDivisor(supported: seq<Interval>, n: Positive) {
    forall iv :: !IsDivisor(supported, iv, n)
  }

  method LargestDivisor(supported: seq<Interval>, n: Positive) returns (best: Option<(Interval, Positive)>)
    ensures best.None? ==> NoDivisor(supported, n)
    ensures best.Some? ==> IsLargestDivisor(supported, best.value.0, n)
  {
    best := None;
    for i := 0 to |supported|
      invariant best.None? ==> NoDivisor(supported[..i], n)
      invariant best.Some? ==>
                IsLargestDivisor(supported[..i], best.value.0, n) && best.value.1 == WholeMinutes(best.value.0).value
    {
      assert supported[..i + 1] == supported[..i] + [supported[i]];
      var minutes := WholeMinutes(supported[i]);
      if best.None? {
        FirstDivisor(supported[..i], supported[i], n);
      } else {
        NextDivisor(supported[..i], supported[i], n, best.value.0);
      }
      if minutes.Some? && minutes.value <= n && n % minutes.value == 0 && (best.None? || minutes.value > best.value.1) {
        best := Some((supported[i], minutes.value));
      }
    }
    assert supported[..|supported|] == supported;
  }

  lemma FirstDivisor(before: seq<Interval>, iv: Interval, n: Positive)
    requires NoDivisor(before, n)
    ensures if Fits(iv, n) then IsLargestDivisor(before + [iv], iv, n) else NoDivisor(before + [iv], n)
  {
    DivisorsOfMore(before, iv, n);
  }

  lemma NextDivisor(before: seq<Interval>, iv: Interval, n: Positive, best: Interval)
    requires IsLargestDivisor(before, best, n)
    ensures IsLargestDivisor(before + [iv],
                             if Fits(iv, n) && WholeMinutes(iv).value > WholeMinutes(best).value then iv else best, n)
  {
    DivisorsOfMore(before, iv, n);
  }

  lemma DivisorsOfMore(before: seq<Interval>, iv: Interval, n: Positive)
    ensures forall x :: IsDivisor(before + [iv], x, n) <==> IsDivisor(before, x, n) || (x == iv && Fits(iv, n))
  {
    forall m: Positive | m > n ensures !Divides(m, n) {
      LongerDoesNotDivide(m, n);
    }
  }

  lemma LongerDoesNotDivide(m: Positive, n: Positive)
    requires m > n
    ensures !Divides(m, n)
  {
  }

  method CoarsestIntraday(supported: seq<Interval>) returns (best: Option<Interval>)
    ensures best.None? ==> forall iv | iv in supported :: !iv.InMinutes?
    ensures best.Some? ==> IsCoarsestIntraday(supported, best.value)
  {
    best := None;
    for i := 0 to |supported|
      invariant best.None? ==> forall iv | iv in supported[..i] :: !iv.InMinutes?
      invariant best.Some? ==> IsCoarsestIntraday(supported[..i], best.value)
    {
      assert supported[..i + 1] == supported[..i] + [supported[i]];
      var minutes := MinutesOf(supported[i]);
      if minutes.Some? && (best.None? || minutes.value >= MinutesOf(best.value).value) {
        best := Some(supported[i]);
      }
    }
    assert supported[..|supported|] == supported;
  }

  method ChooseEffectiveInterval(supported: seq<Interval>, requested: Interval) returns (r: Option<Choice>)
    ensures Chosen(supported, requested, r)
  {
    if requested in supported {
      return Some(Choice(requested, None));
    }
    if WholeMinutes(requested).Some? {
      var n := WholeMinutes(requested).value;
      var best := LargestDivisor(supported, n);
      if best.Some? {
        return Some(Choice(best.value.0, Some(Minutes(n))));
      }
      return None;
    }
    match requested {
      case D1 =>
        var best := CoarsestIntraday(supported);
        r := if best.Some? then Some(Choice(best.value, Some(Daily))) else None;
      case W1 =>
        if D1 in supported {
          return Some(Choice(D1, Some(Weekly)));
        }
        var best := CoarsestIntraday(supported);
        r := if best.Some? then Some(Choice(best.value, Some(Weekly))) else None;
      case _ =>
        r := Some(Choice(requested, None));
    }
  }

  // ---- What the choice loses --------------------------------------------------------------

  predicate HasLength(iv: Interval) {
    WholeMinutes(iv).Some? || iv.D1? || iv.W1?
  }

  /** The resampling that turns finer data into an interval. */
  function ToInterval(iv: Interval): Plan
    requires HasLength(iv)
  {
    if iv.D1? then Daily else if iv.W1? then Weekly else Minutes(WholeMinutes(iv).value)
  }

  /**
   * Whatever data the provider has, fetching the chosen interval and carrying out the plan yields the series at the
   * requested interval; for days and weeks made from minutes this needs a minute length that divides a day.
   */
  lemma ChoiceIsLossless(supported: seq<Interval>, requested: Interval, c: Choice, xs: seq<Candle>,
                         metaOffset: Option<int>)
    requires Chosen(supported, requested, Some(c)) && c.plan.Some? && AllUniform(xs)
    requires (requested.D1? || requested.W1?) && c.effective.InMinutes? ==> DAY % (c.effective.m * 60) == 0
    ensures HasLength(requested) && HasLength(c.effective) && c.plan.value == ToInterval(requested)
    ensures Lossless(ToInterval(c.effective), c.plan.value, xs, metaOffset)
  {
    if WholeMinutes(requested).Some? {
      DivisorIsLossless(WholeMinutes(c.effective).value, WholeMinutes(requested).value, xs, metaOffset);
    } else {
      PlanThenFinal(ToInterval(c.effective), c.plan.value, xs, metaOffset);
    }
  }

  lemma DivisorIsLossless(m: Positive, n: Positive, xs: seq<Candle>, metaOffset: Option<int>)
    requires Divides(m, n) && AllUniform(xs)
    ensures Lossless(Minutes(m), Minutes(n), xs, metaOffset)
  {
    var k := n / m;
    assert n == m * k;
    MinutesThenMinutes(m, k, xs, metaOffset);
  }

  lemma ResampledOne(c: Candle, b: Bucketing)
    requires Uniform(c) && b(c.ts).Some?
    ensures Resampled([c], b) == Ok([Close(Start(b(c.ts).value, c))])
  {
    assert [c][..0] == [];
    assert SortByKey([c], Ts) == [c];
    assert Kept([c], b) == [c];
    assert Fold([c], b) == ([], Start(BucketOf(b, c), c)) && Passes([c], b);
    assert CloseLast(Fold([c], b)) == [Close(Start(b(c.ts).value, c))];
  }

  function Flat(ts: int): Candle {
    Candle(ts, Money(0, 0), Money(0, 0), Money(0, 0), Money(0, 0), None, None)
  }

  /** Some Monday midnight is not a multiple of a step that does not divide a day: 4 and 11 days have no common step. */
  lemma OddMonday(step: Positive) returns (day: int)
    requires DAY % step != 0
    ensures WeekStartDay(day) == day && day * DAY % step != 0
  {
    if 4 * DAY % step != 0 {
      day := 4;
    } else {
      day := 11;
      if 11 * DAY % step == 0 {
        var p, q := 4 * DAY / step, 11 * DAY / step;
        assert DAY == (3 * p - q) * step;
        MultipleModulo(3 * p - q, step);
        assert false;
      }
    }
  }

  lemma MultipleModulo(k: int, step: Positive)
    ensures k * step % step == 0
  {
    var x := k * step;
    FloorToUnique(x, step, k);
  }

  /** A candle at that midnight ends up in the day, and the week, before. */
  lemma MidnightIsLost(m: Positive, offset: int, day: int)
    requires WeekStartDay(day) == day && day * DAY % (m * 60) != 0
    ensures var t := (day * DAY - offset) * NANOS;
      && DayBuckets(offset)(MinuteBuckets(m, offset)(t).value) != DayBuckets(offset)(t)
      && WeekBuckets(offset)(MinuteBuckets(m, offset)(t).value) != WeekBuckets(offset)(t)
  {
    var t, start := (day * DAY - offset) * NANOS, FloorTo(day * DAY, m * 60);
    SecondsOfWhole(day * DAY - offset);
    SecondsOfWhole(start - offset);
    WholeDays(day);
    DayBefore(start, day);
    WeekStartsMonotone(start / DAY, day - 1);
  }

  lemma DayBefore(start: int, day: int)
    requires start < day * DAY
    ensures start / DAY < day
  {
  }

  lemma MinutesLose(m: Positive, final: Plan, metaOffset: Option<int>) returns (xs: seq<Candle>)
    requires (final.Daily? || final.Weekly?) && DAY % (m * 60) != 0
    ensures AllUniform(xs) && !Lossless(Minutes(m), final, xs, metaOffset)
  {
    var day := OddMonday(m * 60);
    var offset := OffsetOf(metaOffset);
    var t := (day * DAY - offset) * NANOS;
    MidnightIsLost(m, offset, day);
    xs := [Flat(t)];
    PlannedFlat(Minutes(m), t, metaOffset);
    PlannedFlat(final, t, metaOffset);
    PlannedFlat(final, MinuteBuckets(m, offset)(t).value, metaOffset);
  }

  lemma PlannedFlat(plan: Plan, t: int, metaOffset: Option<int>)
    requires BucketsOf(plan, metaOffset).Some?
    ensures BucketsOf(plan, metaOffset).value(t).Some?
    ensures Planned(plan, [Flat(t)], metaOffset) == Ok([Flat(BucketsOf(plan, metaOffset).value(t).value)])
  {
    ResampledFlat(t, BucketsOf(plan, metaOffset).value);
  }

  lemma ResampledFlat(t: int, b: Bucketing)
    requires b(t).Some?
    ensures Resampled([Flat(t)], b) == Ok([Flat(b(t).value)])
  {
    ResampledOne(Flat(t), b);
  }

  /** Making days, or weeks, from minutes loses nothing on any series iff the minutes divide a day. */
  lemma IntradayIsLosslessIff(m: Positive, final: Plan, metaOffset: Option<int>)
    requires final.Daily? || final.Weekly?
    ensures (forall xs | AllUniform(xs) :: Lossless(Minutes(m), final, xs, metaOffset)) <==> DAY % (m * 60) == 0
  {
    if DAY % (m * 60) == 0 {
      forall xs | AllUniform(xs) ensures Lossless(Minutes(m), final, xs, metaOffset) {
        PlanThenFinal(Minutes(m), final, xs, metaOffset);
      }
    } else {
      var xs := MinutesLose(m, final, metaOffset);
    }
  }
}

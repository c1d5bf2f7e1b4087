/** The bucketings by minutes, day and Monday week, in UTC or at a fixed offset, and how they nest. */
module Buckets {
  import opened Wrappers
  import opened Candles
  import opened Resample
  import opened ResampleProps

  const DAY := 86_400

  /** Whole seconds since the epoch, rounded down. */
  function Seconds(ts: int): int {
    ts / NANOS
  }

  function AtSecond(s: int): Option<int> {
    Some(s * NANOS)
  }

  /** The Monday that starts the week of a day; day 0 was a Thursday. */
  function WeekStartDay(day: int): int {
    day - (day + 3) % 7
  }

  /** The local day of a timestamp. */
  function DayIndex(ts: int, offset: int): int {
    (Seconds(ts) + offset) / DAY
  }

  function DayBuckets(offset: int): Bucketing {
    (ts: int) => AtSecond(DayIndex(ts, offset) * DAY - offset)
  }

  function WeekBuckets(offset: int): Bucketing {
    (ts: int) => AtSecond(WeekStartDay(DayIndex(ts, offset)) * DAY - offset)
  }

  /** The largest multiple of `m` that is at most `x`. */
  function FloorTo(x: int, m: int): int
    requires m > 0
  {
    x - x % m
  }

  /** Buckets of `step` seconds, counted from local midnight at the epoch. */
  function StepBuckets(step: int, offset: int): Bucketing
    requires step > 0
  {
    (ts: int) => AtSecond(FloorTo(Seconds(ts) + offset, step) - offset)
  }

  function MinuteBuckets(minutes: int, offset: int): Bucketing
    requires minutes > 0
  {
    StepBuckets(minutes * 60, offset)
  }

  /** Without an offset in the metadata, buckets are those of UTC. */
  function OffsetOf(metaOffset: Option<int>): int {
    if metaOffset.Some? then metaOffset.value else 0
  }

  datatype Plan = Minutes(minutes: int) | Daily | Weekly

  /** The bucketing of a plan; a non-positive number of minutes has none. */
  function BucketsOf(plan: Plan, metaOffset: Option<int>): Option<Bucketing> {
    var offset := OffsetOf(metaOffset);
    match plan
    case Minutes(m) => if m > 0 then Some(MinuteBuckets(m, offset)) else None
    case Daily => Some(DayBuckets(offset))
    case Weekly => Some(WeekBuckets(offset))
  }

  /** What a plan computes; without buckets it leaves the series alone. */
  function Planned(plan: Plan, xs: seq<Candle>, metaOffset: Option<int>): Result<seq<Candle>, DataError> {
    var b := BucketsOf(plan, metaOffset);
    if b.None? then Ok(xs) else Resampled(xs, b.value)
  }

  method ResampleToMinutesWithMeta(candles: seq<Candle>, minutes: int, metaOffset: Option<int>)
    returns (r: Result<seq<Candle>, DataError>)
    ensures r == Planned(Minutes(minutes), candles, metaOffset)
  {
    if candles == [] || minutes <= 0 {
      return Ok(candles);
    }
    r := ResampleBy(candles, MinuteBuckets(minutes, OffsetOf(metaOffset)));
  }

  method ResampleToDailyWithMeta(candles: seq<Candle>, metaOffset: Option<int>)
      returns (r: Result<seq<Candle>, DataError>)
    ensures r == Planned(Daily, candles, metaOffset)
  {
    r := ResampleBy(candles, DayBuckets(OffsetOf(metaOffset)));
  }

  method ResampleToWeeklyWithMeta(candles: seq<Candle>, metaOffset: Option<int>)
      returns (r: Result<seq<Candle>, DataError>)
    ensures r == Planned(Weekly, candles, metaOffset)
  {
    r := ResampleBy(candles, WeekBuckets(OffsetOf(metaOffset)));
  }

  // ---- Arithmetic of floors ---------------------------------------------------------------

  /** `FloorTo(x, m)` is the largest multiple of `m` that is at most `x`. */
  lemma FloorToLargest(x: int, m: int, q: int)
    requires m > 0 && q * m <= x
    ensures q * m <= FloorTo(x, m) <= x < FloorTo(x, m) + m
  {
    var d := x / m;
    assert FloorTo(x, m) == d * m;
    if d < q {
      ScaleMonotone(d + 1, q, m);
    } else {
      ScaleMonotone(q, d, m);
    }
  }

  lemma ScaleMonotone(a: int, b: int, m: int)
    requires a <= b && m > 0
    ensures a * m <= b * m
  {
  }

  lemma FloorToMonotone(x: int, y: int, m: int)
    requires m > 0 && x <= y
    ensures FloorTo(x, m) <= FloorTo(y, m)
  {
    assert FloorTo(x, m) == x / m * m;
    FloorToLargest(y, m, x / m);
  }

  /** A multiple of `n` is a multiple of its divisor `m`: flooring to `m` first does not lose it. */
  lemma FloorToNests(x: int, m: int, n: int, k: int)
    requires m > 0 && n > 0 && n == m * k
    ensures FloorTo(FloorTo(x, m), n) == FloorTo(x, n)
  {
    var y := FloorTo(x, m);
    var q := x / n;
    assert FloorTo(x, n) == q * n;
    Reassociate(q, m, k);
    FloorToLargest(x, m, q * k);
    FloorToUnique(y, n, q);
  }

  lemma Reassociate(q: int, m: int, k: int)
    ensures q * (m * k) == (q * k) * m
  {
  }

  lemma FloorToUnique(y: int, n: int, q: int)
    requires n > 0 && q * n <= y < q * n + n
    ensures FloorTo(y, n) == q * n
  {
    FloorToLargest(y, n, q);
    var d := y / n;
    assert FloorTo(y, n) == d * n;
    if d > q {
      ScaleMonotone(q + 1, d, n);
    } else if d < q {
      ScaleMonotone(d + 1, q, n);
    }
  }

  // ---- Nesting of bucketings --------------------------------------------------------------

  lemma SecondsMonotone(s: int, t: int)
    requires s <= t
    ensures Seconds(s) <= Seconds(t)
  {
  }

  lemma SecondsOfWhole(s: int)
    ensures Seconds(s * NANOS) == s
  {
  }

  lemma DaysMonotone(x: int, y: int)
    requires x <= y
    ensures x / DAY <= y / DAY
  {
  }

  lemma WeekStartsMonotone(d: int, e: int)
    requires d <= e
    ensures WeekStartDay(d) <= WeekStartDay(e) && WeekStartDay(WeekStartDay(d)) == WeekStartDay(d)
  {
  }

  lemma WholeDays(day: int)
    ensures day * DAY / DAY == day
  {
  }

  lemma DayBucketsMonotone(offset: int)
    ensures Monotone(DayBuckets(offset))
  {
    forall s, t | s <= t ensures DayBuckets(offset)(s).value <= DayBuckets(offset)(t).value {
      SecondsMonotone(s, t);
      DaysMonotone(Seconds(s) + offset, Seconds(t) + offset);
    }
  }

  lemma WeekBucketsMonotone(offset: int)
    ensures Monotone(WeekBuckets(offset))
  {
    forall s, t | s <= t ensures WeekBuckets(offset)(s).value <= WeekBuckets(offset)(t).value {
      SecondsMonotone(s, t);
      DaysMonotone(Seconds(s) + offset, Seconds(t) + offset);
      WeekStartsMonotone((Seconds(s) + offset) / DAY, (Seconds(t) + offset) / DAY);
    }
  }

  lemma StepBucketsMonotone(step: int, offset: int)
    requires step > 0
    ensures Monotone(StepBuckets(step, offset))
  {
    forall s, t | s <= t ensures StepBuckets(step, offset)(s).value <= StepBuckets(step, offset)(t).value {
      SecondsMonotone(s, t);
      FloorToMonotone(Seconds(s) + offset, Seconds(t) + offset, step);
    }
  }

  /** A bucket start that lies in the local day of its timestamp has that day too. */
  lemma StartOfDay(t: int, start: int, offset: int)
    requires DayIndex(t, offset) * DAY <= start <= Seconds(t) + offset
    ensures DayIndex((start - offset) * NANOS, offset) == DayIndex(t, offset)
  {
    var x := Seconds(t) + offset;
    SecondsOfWhole(start - offset);
    DaysMonotone(x / DAY * DAY, start);
    DaysMonotone(start, x);
    WholeDays(x / DAY);
  }

  /** Such a start has the same day and week bucket as its timestamp. */
  lemma SameDaySameBuckets(t: int, start: int, offset: int)
    requires DayIndex(t, offset) * DAY <= start <= Seconds(t) + offset
    ensures DayBuckets(offset)((start - offset) * NANOS) == DayBuckets(offset)(t)
    ensures WeekBuckets(offset)((start - offset) * NANOS) == WeekBuckets(offset)(t)
  {
    StartOfDay(t, start, offset);
  }

  lemma DayBucketNests(t: int, offset: int)
    ensures WeekBuckets(offset)(DayBuckets(offset)(t).value) == WeekBuckets(offset)(t)
    ensures DayBuckets(offset)(DayBuckets(offset)(t).value) == DayBuckets(offset)(t)
  {
    var day := DayIndex(t, offset);
    assert day * DAY <= Seconds(t) + offset;
    SameDaySameBuckets(t, day * DAY, offset);
  }

  lemma DaysNestInWeeks(offset: int)
    ensures Coarsens(DayBuckets(offset), WeekBuckets(offset))
    ensures Coarsens(DayBuckets(offset), DayBuckets(offset))
  {
    forall t
      ensures NestsAt(DayBuckets(offset), WeekBuckets(offset), t) && NestsAt(DayBuckets(offset), DayBuckets(offset), t)
    {
      DayBucketNests(t, offset);
    }
  }

  lemma WeeksNestInWeeks(offset: int)
    ensures Coarsens(WeekBuckets(offset), WeekBuckets(offset))
  {
    forall t ensures NestsAt(WeekBuckets(offset), WeekBuckets(offset), t) {
      var monday := WeekStartDay((Seconds(t) + offset) / DAY);
      SecondsOfWhole(monday * DAY - offset);
      WholeDays(monday);
      WeekStartsMonotone((Seconds(t) + offset) / DAY, (Seconds(t) + offset) / DAY);
    }
  }

  lemma StepNests(t: int, m: int, n: int, k: int, offset: int)
    requires m > 0 && n > 0 && n == m * k
    ensures StepBuckets(n, offset)(StepBuckets(m, offset)(t).value) == StepBuckets(n, offset)(t)
  {
    var x := Seconds(t) + offset;
    FloorToNests(x, m, n, k);
    SecondsOfWhole(FloorTo(x, m) - offset);
  }

  lemma StepsNest(m: int, n: int, k: int, offset: int)
    requires m > 0 && n > 0 && n == m * k
    ensures Coarsens(StepBuckets(m, offset), StepBuckets(n, offset))
  {
    forall t ensures NestsAt(StepBuckets(m, offset), StepBuckets(n, offset), t) {
      StepNests(t, m, n, k, offset);
    }
  }

  lemma MultipleOfMinutes(minutes: int, k: int)
    requires minutes > 0 && k > 0
    ensures minutes * k > 0 && minutes * k * 60 == minutes * 60 * k
  {
  }

  lemma MinutesNestInMinutes(minutes: int, k: int, offset: int)
    requires minutes > 0 && k > 0
    ensures minutes * k > 0 && Coarsens(MinuteBuckets(minutes, offset), MinuteBuckets(minutes * k, offset))
  {
    MultipleOfMinutes(minutes, k);
    StepsNest(minutes * 60, minutes * k * 60, k, offset);
  }

  lemma DayStartIsStep(x: int, step: int)
    requires step > 0 && DAY % step == 0
    ensures x / DAY * DAY <= FloorTo(x, step) <= x
  {
    var day, k := x / DAY, DAY / step;
    assert DAY == k * step;
    assert day * DAY == (day * k) * step;
    assert day * DAY <= x;
    FloorToLargest(x, step, day * k);
  }

  /** Minute buckets nest in days, and in weeks, iff their length divides a day. */
  lemma MinutesNestInDays(minutes: int, offset: int)
    requires minutes > 0
    ensures Coarsens(MinuteBuckets(minutes, offset), DayBuckets(offset)) <==> DAY % (minutes * 60) == 0
    ensures DAY % (minutes * 60) == 0 ==> Coarsens(MinuteBuckets(minutes, offset), WeekBuckets(offset))
  {
    var f, g, w := MinuteBuckets(minutes, offset), DayBuckets(offset), WeekBuckets(offset);
    if DAY % (minutes * 60) == 0 {
      forall t ensures NestsAt(f, g, t) && NestsAt(f, w, t) {
        MinuteBucketNests(t, minutes, offset);
      }
    } else {
      MidnightMoves(minutes, offset);
      var t := (DAY - offset) * NANOS;
      assert !NestsAt(f, g, t);
    }
  }

  lemma MinuteBucketNests(t: int, minutes: int, offset: int)
    requires minutes > 0 && DAY % (minutes * 60) == 0
    ensures DayBuckets(offset)(MinuteBuckets(minutes, offset)(t).value) == DayBuckets(offset)(t)
    ensures WeekBuckets(offset)(MinuteBuckets(minutes, offset)(t).value) == WeekBuckets(offset)(t)
  {
    var x := Seconds(t) + offset;
    DayStartIsStep(x, minutes * 60);
    SameDaySameBuckets(t, FloorTo(x, minutes * 60), offset);
  }

  lemma MidnightMoves(minutes: int, offset: int)
    requires minutes > 0 && DAY % (minutes * 60) != 0
    ensures var t := (DAY - offset) * NANOS;
      DayBuckets(offset)(MinuteBuckets(minutes, offset)(t).value) != DayBuckets(offset)(t)
  {
    var t := (DAY - offset) * NANOS;
    SecondsOfWhole(DAY - offset);
    StraddlesMidnight(minutes * 60, offset);
  }

  /** A bucket length that does not divide a day puts midnight into a bucket of the day before. */
  lemma StraddlesMidnight(step: int, offset: int)
    requires step > 0 && DAY % step != 0
    ensures (Seconds((FloorTo(DAY, step) - offset) * NANOS) + offset) / DAY < 1
  {
    var y := FloorTo(DAY, step);
    SecondsOfWhole(y - offset);
    assert y < DAY;
  }

  // ---- Planned resampling followed by the configured one ----------------------------------

  /** The final resampling is daily or weekly, and the plan's buckets nest in it. */
  predicate PlanNests(plan: Plan, final: Plan) {
    match plan
    case Minutes(m) => m > 0 && DAY % (m * 60) == 0 && (final.Daily? || final.Weekly?)
    case Daily => final.Daily? || final.Weekly?
    case Weekly => final.Weekly?
  }

  lemma PlanBucketsNest(plan: Plan, final: Plan, metaOffset: Option<int>)
    requires PlanNests(plan, final)
    ensures BucketsOf(plan, metaOffset).Some? && BucketsOf(final, metaOffset).Some?
    ensures Monotone(BucketsOf(plan, metaOffset).value)
    ensures Coarsens(BucketsOf(plan, metaOffset).value, BucketsOf(final, metaOffset).value)
  {
    var offset := OffsetOf(metaOffset);
    match plan
    case Minutes(m) =>
      StepBucketsMonotone(m * 60, offset);
      MinutesNestInDays(m, offset);
    case Daily =>
      DayBucketsMonotone(offset);
      DaysNestInWeeks(offset);
    case Weekly =>
      WeekBucketsMonotone(offset);
      WeeksNestInWeeks(offset);
  }

  /** Going through `plan` first makes no difference to resampling `xs` by `final`. */
  ghost predicate Lossless(plan: Plan, final: Plan, xs: seq<Candle>, metaOffset: Option<int>) {
    match Planned(plan, xs, metaOffset)
    case Ok(ys) => Planned(final, ys, metaOffset) == Planned(final, xs, metaOffset)
    case Err(_) => Planned(final, xs, metaOffset).Err?
  }

  /** A single provider's series: the planned resampling makes no difference to the final one. */
  lemma PlanThenFinal(plan: Plan, final: Plan, xs: seq<Candle>, metaOffset: Option<int>)
    requires AllUniform(xs) && PlanNests(plan, final)
    ensures Lossless(plan, final, xs, metaOffset)
  {
    PlanBucketsNest(plan, final, metaOffset);
    ResamplingFuses(xs, BucketsOf(plan, metaOffset).value, BucketsOf(final, metaOffset).value);
  }

  /** Resampling to a minutes and then to a multiple of them is resampling to the multiple. */
  lemma MinutesThenMinutes(minutes: int, k: int, xs: seq<Candle>, metaOffset: Option<int>)
    requires AllUniform(xs) && minutes > 0 && k > 0
    ensures Lossless(Minutes(minutes), Minutes(minutes * k), xs, metaOffset)
  {
    var offset := OffsetOf(metaOffset);
    StepBucketsMonotone(minutes * 60, offset);
    MinutesNestInMinutes(minutes, k, offset);
    ResamplingFuses(xs, MinuteBuckets(minutes, offset), MinuteBuckets(minutes * k, offset));
  }
}

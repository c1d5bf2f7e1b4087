/** The attribution against the series that is returned, which is resampled after it has been attributed. */
module ReturnedSpans {
  import opened Wrappers
  import opened Candles
  import opened Sorting
  import opened OrderedMap
  import opened Merge
  import opened Resample
  import opened ResampleProps
  import opened Buckets
  import opened Attribution
  import opened History

  // ---- Seconds inside spans ---------------------------------------------------------------

  ghost predicate InSomeSpan(spans: seq<Span>, second: int) {
    exists i :: 0 <= i < |spans| && InSpan(spans[i], second)
  }

  /** The second is that of the j-th tag, or lies between it and the tag before, of the same provider. */
  predicate ReachedBy(tl: seq<Tag>, j: nat, second: int) {
    && j < |tl|
    && (Seconds(tl[j].ts) == second ||
        (j > 0 && tl[j - 1].provider == tl[j].provider && Seconds(tl[j - 1].ts) <= second <= Seconds(tl[j].ts)))
  }

  ghost predicate Reached(tl: seq<Tag>, second: int) {
    exists j: nat :: ReachedBy(tl, j, second)
  }

  lemma ExtendReaches(spans: seq<Span>, t: Tag, second: int)
    requires Alternate(spans) && EndsBy(spans, Seconds(t.ts))
    ensures InSomeSpan(Extend(spans, t), second) <==>
            || InSomeSpan(spans, second) || Seconds(t.ts) == second
            || (spans != [] && spans[|spans| - 1].provider == t.provider
                && spans[|spans| - 1].end <= second <= Seconds(t.ts))
  {
    var r, n := Extend(spans, t), |spans| - 1;
    if i :| 0 <= i < |r| && InSpan(r[i], second) {
      assert i < n || (i < |spans| && spans[i] == r[i]) ==> InSpan(spans[i], second);
      assert i == n && r[n] != spans[n] ==> InSpan(spans[n], second) || spans[n].end <= second;
    }
    if i :| 0 <= i < |spans| && InSpan(spans[i], second) {
      assert InSpan(r[i], second);
    }
    assert r[|r| - 1].end == Seconds(t.ts) && r[|r| - 1].start <= r[|r| - 1].end;
    assert InSpan(r[|r| - 1], Seconds(t.ts));
    if spans != [] && spans[n].provider == t.provider && spans[n].end <= second <= Seconds(t.ts) {
      assert InSpan(r[n], second);
    }
  }

  lemma ReachedMore(tl: seq<Tag>, second: int)
    requires tl != []
    ensures Reached(tl, second) <==> Reached(tl[..|tl| - 1], second) || ReachedBy(tl, |tl| - 1, second)
  {
    var init := tl[..|tl| - 1];
    if j: nat :| ReachedBy(tl, j, second) {
      assert j < |init| ==> ReachedBy(init, j, second);
    }
    if j: nat :| ReachedBy(init, j, second) {
      assert ReachedBy(tl, j, second);
    }
  }

  /** A second lies in a span iff it is that of a tag, or lies between two neighbouring tags of one provider. */
  lemma {:induction false} InSomeSpanIff(tl: seq<Tag>, second: int)
    requires StrictlySorted(tl, TagTs)
    ensures InSomeSpan(Spans(tl), second) <==> Reached(tl, second)
  {
    if tl != [] {
      var init, n := tl[..|tl| - 1], |tl| - 1;
      InSomeSpanIff(init, second);
      SpansCover(init);
      if init != [] {
        NextSecond(tl);
      }
      ExtendReaches(Spans(init), tl[n], second);
      ReachedMore(tl, second);
    }
  }

  /** Nothing before the first tag is reached; its own second is. */
  lemma ReachedAtFront(tl: seq<Tag>, second: int)
    requires tl != [] && StrictlySorted(tl, TagTs) && second <= Seconds(tl[0].ts)
    ensures Reached(tl, second) <==> second == Seconds(tl[0].ts)
  {
    forall j: nat | ReachedBy(tl, j, second) ensures second == Seconds(tl[0].ts) {
      var i := if Seconds(tl[j].ts) == second || j == 0 then j else j - 1;
      assert i > 0 ==> TagTs(tl[0]) < TagTs(tl[i]);
      SecondsMonotone(tl[0].ts, tl[i].ts);
    }
    if second == Seconds(tl[0].ts) {
      assert ReachedBy(tl, 0, second);
    }
  }

  // ---- The times of the merge -------------------------------------------------------------

  lemma {:induction false} TaggedTimes(rs: seq<Named>, ts: int)
    ensures HasKey(AllTags(rs), TagTs, ts) <==> HasKey(AllCandles(Responses(rs)), Ts, ts)
  {
    if rs != [] {
      var init, n := rs[..|rs| - 1], |rs| - 1;
      TaggedTimes(init, ts);
      assert Responses(rs)[..n] == Responses(init);
      var cs, tags := rs[n].response.candles, TagsOf(rs[n]);
      assert HasKey(tags, TagTs, ts) <==> HasKey(cs, Ts, ts) by {
        assert forall i | 0 <= i < |cs| :: TagTs(tags[i]) == Ts(cs[i]);
      }
      HasKeyConcat(AllTags(init), tags, TagTs, ts);
      HasKeyConcat(AllCandles(Responses(init)), cs, Ts, ts);
    }
  }

  lemma HasKeyConcat<T>(a: seq<T>, b: seq<T>, key: T -> int, k: int)
    ensures HasKey(a + b, key, k) <==> HasKey(a, key, k) || HasKey(b, key, k)
  {
    if i :| 0 <= i < |a| && key(a[i]) == k {
      assert key((a + b)[i]) == k;
    }
    if i :| 0 <= i < |b| && key(b[i]) == k {
      assert key((a + b)[|a| + i]) == k;
    }
  }

  /** What is merged has the times of the timeline. */
  lemma MergedTimes(rs: seq<Named>, h: Response, ts: int)
    requires MergedOrBlamed(rs, Ok(h))
    ensures HasKey(h.candles, Ts, ts) <==> HasKey(Timeline(rs), TagTs, ts)
  {
    TimelineTimes(rs, ts);
    if |rs| == 1 {
      OneResponse(rs);
    } else {
      MergeTimes(Responses(rs), ts);
    }
  }

  lemma TimelineTimes(rs: seq<Named>, ts: int)
    ensures HasKey(Timeline(rs), TagTs, ts) <==> HasKey(AllCandles(Responses(rs)), Ts, ts)
  {
    PutAllFacts([], AllTags(rs), TagTs);
    TaggedTimes(rs, ts);
  }

  lemma OneResponse(rs: seq<Named>)
    requires |rs| == 1
    ensures AllCandles(Responses(rs)) == rs[0].response.candles
  {
    var all := Responses(rs);
    assert all[..0] == [] && all[0] == rs[0].response;
    assert AllCandles(all) == [] + rs[0].response.candles;
  }

  lemma MergeTimes(rs: seq<Response>, ts: int)
    requires Merged(rs).Ok?
    ensures HasKey(Merged(rs).value.candles, Ts, ts) <==> HasKey(AllCandles(rs), Ts, ts)
  {
    CollectIsFirstWins(rs);
    PutAllFacts([], AllCandles(rs), Ts);
    StripKeepsTimes(FirstWins(AllCandles(rs), Ts), ts);
  }

  lemma StripKeepsTimes(cs: seq<Candle>, ts: int)
    ensures HasKey(StripAll(cs), Ts, ts) <==> HasKey(cs, Ts, ts)
  {
    assert forall i | 0 <= i < |cs| :: Ts(StripAll(cs)[i]) == Ts(cs[i]);
  }

  lemma TimelineSorted(rs: seq<Named>)
    ensures StrictlySorted(Timeline(rs), TagTs)
  {
    FirstWinsExactly(AllTags(rs), TagTs);
  }

  // ---- The series returned ----------------------------------------------------------------

  /** A returned candle lies in a span iff its second is reached by the timeline of the merge. */
  lemma ReturnedIsReached(rs: seq<Named>, cfg: Config, r: Result<(Response, seq<Span>), HistoryError>, c: Candle)
    requires Finished(rs, cfg, r) && r.Ok? && c in r.value.0.candles
    ensures InSomeSpan(r.value.1, Seconds(c.ts)) <==> Reached(Timeline(rs), Seconds(c.ts))
  {
    TimelineSorted(rs);
    InSomeSpanIff(Timeline(rs), Seconds(c.ts));
  }

  /** If nothing is resampled, every returned candle lies in a span. */
  lemma UnresampledIsReached(rs: seq<Named>, cfg: Config, h: Response, c: Candle)
    requires MergedOrBlamed(rs, Ok(h)) && FinalPlan(cfg, h.candles).None? && c in h.candles
    ensures FinalResampled(cfg, h) == Ok(h) && InSomeSpan(Spans(Timeline(rs)), Seconds(c.ts))
  {
    var tl := Timeline(rs);
    MergedTimes(rs, h, c.ts);
    HasKeyByMember(h.candles, Ts, c.ts);
    var j: nat :| j < |tl| && TagTs(tl[j]) == c.ts;
    assert ReachedBy(tl, j, Seconds(c.ts));
    TimelineSorted(rs);
    InSomeSpanIff(tl, Seconds(c.ts));
  }

  /** Days and weeks begin no later than the timestamps in them. */
  lemma FinalBuckets(plan: Plan, metaOffset: Option<int>, t: int)
    requires plan.Daily? || plan.Weekly?
    ensures var b := BucketsOf(plan, metaOffset).value; Monotone(b) && b(t).Some? && b(t).value <= t
  {
    var offset := OffsetOf(metaOffset);
    DayBucketsMonotone(offset);
    WeekBucketsMonotone(offset);
    assert WeekStartDay(DayIndex(t, offset)) <= DayIndex(t, offset);
  }

  /** The first resampled candle begins no later than any candle of the series. */
  lemma FirstBeginsEarly(cs: seq<Candle>, b: Bucketing, c: Candle)
    requires Monotone(b) && Resampled(cs, b).Ok? && c in cs && b(c.ts).Some? && b(c.ts).value <= c.ts
    ensures Resampled(cs, b).value != [] && Resampled(cs, b).value[0].ts <= c.ts
  {
    var out := Resampled(cs, b).value;
    ResamplesByGroup(cs, b);
    var i :| 0 <= i < |out| && out[i].ts == BucketOf(b, c);
    assert i > 0 ==> Ts(out[0]) < Ts(out[i]);
  }

  /**
   * After a final resampling the first returned candle lies in a span iff the first merged candle falls into the very
   * second in which its day, or week, begins.
   */
  lemma FirstReturnedIff(rs: seq<Named>, cfg: Config, h: Response)
    requires MergedOrBlamed(rs, Ok(h)) && h.candles != []
    requires FinalPlan(cfg, h.candles).Some? && FinalResampled(cfg, h).Ok?
    ensures var out, tl := FinalResampled(cfg, h).value.candles, Timeline(rs);
      && out != [] && tl != []
      && (InSomeSpan(Spans(tl), Seconds(out[0].ts)) <==> Seconds(out[0].ts) == Seconds(tl[0].ts))
  {
    var tl, b := Timeline(rs), BucketsOf(FinalPlan(cfg, h.candles).value, MetaOffset(h.meta)).value;
    var out := FinalResampled(cfg, h).value.candles;
    TimelineSorted(rs);
    MergedTimes(rs, h, h.candles[0].ts);
    HasKeyByMember(h.candles, Ts, h.candles[0].ts);
    MergedTimes(rs, h, tl[0].ts);
    assert TagTs(tl[0]) == tl[0].ts;
    HasKeyByMember(h.candles, Ts, tl[0].ts);
    var c :| c in h.candles && Ts(c) == tl[0].ts;
    FinalBuckets(FinalPlan(cfg, h.candles).value, MetaOffset(h.meta), c.ts);
    FirstBeginsEarly(h.candles, b, c);
    SecondsMonotone(out[0].ts, tl[0].ts);
    ReachedAtFront(tl, Seconds(out[0].ts));
    InSomeSpanIff(tl, Seconds(out[0].ts));
  }

  const HALF_PAST_NINE := 34_200 * NANOS

  function Opening(): Named {
    var p := Money(1, 0);
    Named("p", Response([Candle(HALF_PAST_NINE, p, p, p, p, None, None)], [], false, None))
  }

  /** One candle at half past nine: the daily candle is returned at midnight, before the only span. */
  lemma DailyCandleBeforeSpans(cfg: Config)
    requires cfg.resampling.ToDaily?
    ensures var h := Opening().response; var final := FinalResampled(cfg, h);
      && MergedOrBlamed([Opening()], Ok(h)) && final.Ok? && |final.value.candles| == 1 && final.value.candles[0].ts == 0
      && !InSomeSpan(Spans(Timeline([Opening()])), 0)
  {
    var h, tl := Opening().response, Timeline([Opening()]);
    OneDay(h.candles[0]);
    assert h.candles == [h.candles[0]];
    FirstReturnedIff([Opening()], cfg, h);
    MergedTimes([Opening()], h, tl[0].ts);
    assert TagTs(tl[0]) == tl[0].ts;
    assert tl[0].ts == HALF_PAST_NINE;
  }

  lemma OneDay(c: Candle)
    requires c.ts == HALF_PAST_NINE && Uniform(c)
    ensures var r := Resampled([c], DayBuckets(0)); r.Ok? && |r.value| == 1 && r.value[0].ts == 0
  {
    assert DayBuckets(0)(c.ts) == Some(0);
    OneBucket(c, DayBuckets(0), 0);
  }

  lemma OneBucket(c: Candle, b: Bucketing, k: int)
    requires Uniform(c) && b(c.ts) == Some(k)
    ensures Resampled([c], b) == Ok([Close(Start(k, c))])
  {
    SortSorted([c], Ts);
    OneKept(c, b);
    OneFolded(c, b, k);
  }

  lemma OneKept(c: Candle, b: Bucketing)
    requires b(c.ts).Some?
    ensures Kept([c], b) == [c]
  {
    assert [c][..0] == [] && Kept([], b) + [c] == [c];
  }

  lemma OneFolded(c: Candle, b: Bucketing, k: int)
    requires Uniform(c) && b(c.ts) == Some(k)
    ensures Passes([c], b) && CloseLast(Fold([c], b)) == [Close(Start(k, c))]
  {
    assert Fold([c], b) == ([], Start(k, c));
  }
}

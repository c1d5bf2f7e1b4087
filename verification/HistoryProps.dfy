/** Properties of the history pipeline from the providers' answers to the result. */
module HistoryProps {
  import opened Wrappers
  import opened Candles
  import opened Sorting
  import opened OrderedMap
  import opened Merge
  import opened Resample
  import opened ResampleProps
  import opened Buckets
  import opened Infer
  import opened Attribution
  import opened History

  // ---- The configured resampling settles --------------------------------------------------

  /** Every candle of a resampled series stands for a candle of its bucket. */
  lemma BucketHasMember(xs: seq<Candle>, b: Bucketing, i: nat) returns (c: Candle)
    requires Monotone(b) && Resampled(xs, b).Ok? && i < |Resampled(xs, b).value|
    ensures b(c.ts) == Some(Resampled(xs, b).value[i].ts)
  {
    ResamplesByGroup(xs, b);
    var ys, k := Kept(SortByKey(xs, Ts), b), Resampled(xs, b).value[i].ts;
    var g := Members(ys, b, k);
    assert IsCandleOf(Resampled(xs, b).value[i], k, g);
    c := g[0];
    WithKeyHas(ys, Bucket(b), k, c);
  }

  predicate IsMidnight(t: int, offset: int) {
    t == (DayIndex(t, offset) * DAY - offset) * NANOS
  }

  /** Timestamps of daily candles are local midnights. */
  lemma DailyTimes(xs: seq<Candle>, offset: int, i: nat)
    requires Resampled(xs, DayBuckets(offset)).Ok? && i < |Resampled(xs, DayBuckets(offset)).value|
    ensures IsMidnight(Resampled(xs, DayBuckets(offset)).value[i].ts, offset)
  {
    DayBucketsMonotone(offset);
    var c := BucketHasMember(xs, DayBuckets(offset), i);
    DayBucketNests(c.ts, offset);
  }

  lemma MidnightsAreADayApart(s: int, t: int, offset: int)
    requires s < t && IsMidnight(s, offset) && IsMidnight(t, offset)
    ensures (t - s) / NANOS >= DAY
  {
    var d, e := DayIndex(s, offset), DayIndex(t, offset);
    assert t - s == (e - d) * DAY * NANOS;
    assert e > d;
  }

  /** A daily series has no step shorter than a day. */
  lemma DailyDeltas(xs: seq<Candle>, offset: int)
    requires Resampled(xs, DayBuckets(offset)).Ok?
    ensures forall i | 0 <= i < |DeltasOf(Resampled(xs, DayBuckets(offset)).value)| ::
              DeltasOf(Resampled(xs, DayBuckets(offset)).value)[i] >= DAY
  {
    var out := Resampled(xs, DayBuckets(offset)).value;
    var ts, deltas := SortInts(Times(out)), DeltasOf(out);
    SortIntsFacts(Times(out));
    forall i | 0 <= i < |deltas| ensures deltas[i] >= DAY {
      assert deltas[i] in deltas;
      DeltasAreObserved(ts, deltas[i]);
      var a, b :| Adjacent(ts, a, b) && deltas[i] == Seconds(b - a);
      assert a in Times(out) && b in Times(out);
      var p :| 0 <= p < |out| && out[p].ts == a;
      var q :| 0 <= q < |out| && out[q].ts == b;
      DailyTimes(xs, offset, p);
      DailyTimes(xs, offset, q);
      MidnightsAreADayApart(a, b, offset);
    }
  }

  /**
   * Resampling a second time with the same configuration changes nothing: automatic daily resampling does not repeat.
   */
  lemma FinalResampleSettles(cfg: Config, m: Response)
    requires AllUniform(m.candles)
    ensures match FinalResampled(cfg, m)
      case Ok(h) => FinalResampled(cfg, h) == Ok(h)
      case Err(_) => true
  {
    var offset := MetaOffset(m.meta);
    if FinalPlan(cfg, m.candles).Some? && FinalResampled(cfg, m).Ok? {
      var plan := FinalPlan(cfg, m.candles).value;
      PlanThenFinal(plan, plan, m.candles, offset);
      var days := Planned(plan, m.candles, offset).value;
      if plan.Daily? {
        DailyDeltas(m.candles, OffsetOf(offset));
        DailyIsNotSubdaily(DeltasOf(days));
      }
    }
  }

  // ---- One provider -----------------------------------------------------------------------

  /** The configured resampling when it does not depend on the data. */
  function Configured(cfg: Config): Plan
    requires !cfg.resampling.NoResampling?
  {
    if cfg.resampling.ToWeekly? then Weekly else Daily
  }

  /** The outcome: the series resampled as configured, or an error. */
  ghost predicate Yields(r: Result<(Response, seq<Span>), HistoryError>, hr: Response,
                         cs: Result<seq<Candle>, DataError>) {
    match cs
    case Ok(out) => r.Ok? && r.value.0 == hr.(candles := out)
    case Err(_) => r.Err?
  }

  /** With a single answer, the planned resampling makes no difference to a configured daily or weekly one. */
  lemma SingleAnswer(a: Attempt, cfg: Config, r: Result<(Response, seq<Span>), HistoryError>)
    requires Finalized([a], cfg, r) && a.result.Ok? && a.result.value.candles != [] &&
             AllUniform(a.result.value.candles)
    requires !cfg.resampling.NoResampling? && (a.plan.Some? ==> PlanNests(a.plan.value, Configured(cfg)))
    ensures var hr := a.result.value; Yields(r, hr, Planned(Configured(cfg), hr.candles, MetaOffset(hr.meta)))
  {
    OneAttempt(a);
    if a.plan.None? {
      FinishOne(a, Named(a.name, a.result.value), cfg, r);
    } else {
      PlannedAnswer(a, cfg, r);
    }
  }

  lemma OneAttempt(a: Attempt)
    ensures Successes([a]) == Collect1(Collected([], []), a)
  {
    assert [a][..0] == [];
  }

  lemma PlannedAnswer(a: Attempt, cfg: Config, r: Result<(Response, seq<Span>), HistoryError>)
    requires Finalized([a], cfg, r) && a.result.Ok? && a.result.value.candles != [] &&
             AllUniform(a.result.value.candles)
    requires !cfg.resampling.NoResampling? && a.plan.Some? && PlanNests(a.plan.value, Configured(cfg))
    ensures var hr := a.result.value; Yields(r, hr, Planned(Configured(cfg), hr.candles, MetaOffset(hr.meta)))
  {
    var hr := a.result.value;
    OneAttempt(a);
    PlanThenFinal(a.plan.value, Configured(cfg), hr.candles, MetaOffset(hr.meta));
    match Planned(a.plan.value, hr.candles, MetaOffset(hr.meta))
    case Ok(cs) => FinishOne(a, Named(a.name, hr.(candles := cs)), cfg, r);
    case Err(_) => assert Successes([a]).oks == [];
  }

  lemma FinishOne(a: Attempt, n: Named, cfg: Config, r: Result<(Response, seq<Span>), HistoryError>)
    requires Successes([a]).oks == [Success(a.idx, n)] && !cfg.resampling.NoResampling?
    ensures Finalized([a], cfg, r) ==>
            Yields(r, n.response, Planned(Configured(cfg), n.response.candles, MetaOffset(n.response.meta)))
  {
    UsedOne(a, Success(a.idx, n), cfg);
    if Finalized([a], cfg, r) {
      FinishedOne(n, cfg, r);
    }
  }

  lemma FinishedOne(n: Named, cfg: Config, r: Result<(Response, seq<Span>), HistoryError>)
    requires Finished([n], cfg, r) && !cfg.resampling.NoResampling?
    ensures Yields(r, n.response, Planned(Configured(cfg), n.response.candles, MetaOffset(n.response.meta)))
  {
    var m :| MergedOrBlamed([n], m) && FinishedFrom([n], cfg, m, r);
    assert m == Ok(n.response);
    assert FinalPlan(cfg, n.response.candles) == Some(Configured(cfg));
  }

  lemma UsedOne(a: Attempt, s: Success, cfg: Config)
    requires Successes([a]).oks == [s]
    ensures Used([a], cfg) == [s.named]
  {
    var le := (a: Success, b: Success) => Precedes(a, b, cfg.preferAdjusted);
    assert [s][..0] == [] && SortBy([s][..0], le) == [];
    assert Ordered([s], cfg.preferAdjusted) == [s];
    assert Filtered([s], cfg.preferAdjusted) == [s] by {
      assert TargetAdjusted([s], cfg.preferAdjusted) == s.named.response.adjusted;
      assert WithKey([s], Unadjusted, Unadjusted(s)) == [s];
    }
  }

  // ---- Several providers ------------------------------------------------------------------

  /** If all answers have data and the same flag, so has their merge. */
  lemma {:induction false} FlagSurvives(rs: seq<Response>, adjusted: bool)
    requires rs != [] && forall i | 0 <= i < |rs| :: rs[i].candles != [] && rs[i].adjusted == adjusted
    ensures Collect(rs).adjustedAll == Some(adjusted) && Collect(rs).firstAdjusted == Some(adjusted)
    ensures Collect(rs).candles != []
  {
    var init, r := rs[..|rs| - 1], rs[|rs| - 1];
    if init == [] {
      PutAllFacts([], r.candles, Ts);
      HasKeyByMember(r.candles, Ts, r.candles[0].ts);
      assert HasKey(PutAll([], r.candles, Ts), Ts, r.candles[0].ts);
    } else {
      FlagSurvives(init, adjusted);
      CollectIsFirstWins(init);
      PutAllFacts(Collect(init).candles, r.candles, Ts);
    }
  }

  lemma ResampledHasData(xs: seq<Candle>, b: Bucketing)
    requires xs != [] && Resampled(xs, b).Ok? && forall t :: b(t).Some?
    ensures Resampled(xs, b).value != []
  {
    SortMembers(xs, Ts);
    assert Kept(SortByKey(xs, Ts), b) != [];
  }

  lemma PlannedHasData(plan: Plan, xs: seq<Candle>, metaOffset: Option<int>)
    requires xs != [] && Planned(plan, xs, metaOffset).Ok?
    ensures Planned(plan, xs, metaOffset).value != []
  {
    var b := BucketsOf(plan, metaOffset);
    if b.Some? {
      ResampledHasData(xs, b.value);
    }
  }

  /** Planned resampling never turns data into no data, so every success has candles. */
  lemma {:induction false} SuccessesHaveData(joined: seq<Attempt>)
    ensures forall s | s in Successes(joined).oks :: s.named.response.candles != []
  {
    if joined != [] {
      SuccessesHaveData(joined[..|joined| - 1]);
      var a := joined[|joined| - 1];
      if a.result.Ok? && a.result.value.candles != [] && a.plan.Some? {
        if Planned(a.plan.value, a.result.value.candles, MetaOffset(a.result.value.meta)).Ok? {
          PlannedHasData(a.plan.value, a.result.value.candles, MetaOffset(a.result.value.meta));
        }
      }
    }
  }

  /** The successes that are used: some of them, with one flag, adjusted if that is preferred and there is one. */
  lemma UsedSuccesses(oks: seq<Success>, prefer: bool) returns (adjusted: bool)
    requires oks != []
    ensures var used := Filtered(Ordered(oks, prefer), prefer);
      && used != []
      && (forall s :: s in used <==> s in oks && s.named.response.adjusted == adjusted)
      && (prefer ==> (adjusted <==> exists s :: s in oks && s.named.response.adjusted))
  {
    var ordered := Ordered(oks, prefer);
    OrderedExactly(oks, prefer);
    SameMembers(ordered, oks);
    adjusted := TargetAdjusted(ordered, prefer);
    FilteredFacts(ordered, prefer);
    assert ordered[0] in ordered;
  }

  /** The used answers come from the successes, have data and share the flag. */
  ghost predicate Homogeneous(rs: seq<Named>, oks: seq<Success>, adjusted: bool) {
    forall i | 0 <= i < |rs| ::
        rs[i].response.adjusted == adjusted && rs[i].response.candles != [] && FromSuccess(rs[i], oks)
  }

  ghost predicate FromSuccess(n: Named, oks: seq<Success>) {
    exists s :: s in oks && s.named == n
  }

  lemma NamesAreHomogeneous(used: seq<Success>, oks: seq<Success>, adjusted: bool)
    requires forall s | s in used :: s in oks && s.named.response.adjusted == adjusted
    requires forall s | s in oks :: s.named.response.candles != []
    ensures Homogeneous(Names(used), oks, adjusted)
  {
    forall i | 0 <= i < |used|
      ensures Names(used)[i].response.adjusted == adjusted && Names(used)[i].response.candles != [] &&
              FromSuccess(Names(used)[i], oks)
    {
      assert used[i] in used;
    }
  }

  lemma HomogeneousMerge(rs: seq<Named>, oks: seq<Success>, adjusted: bool)
    requires rs != [] && Homogeneous(rs, oks, adjusted)
    ensures Merged(Responses(rs)).Ok? ==> Merged(Responses(rs)).value.adjusted == adjusted
  {
    assert forall i | 0 <= i < |rs| :: Responses(rs)[i] == rs[i].response;
    FlagSurvives(Responses(rs), adjusted);
  }

  /**
   * The answers that are used are some of the successes, all adjusted or all unadjusted; all adjusted, if that is
   * preferred and some success is; and a merged result carries their flag.
   */
  lemma UsedIsHomogeneous(joined: seq<Attempt>, cfg: Config) returns (adjusted: bool)
    requires Successes(joined).oks != []
    ensures var oks, rs := Successes(joined).oks, Used(joined, cfg);
      && rs != [] && Homogeneous(rs, oks, adjusted)
      && (cfg.preferAdjusted ==> (adjusted <==> exists s :: s in oks && s.named.response.adjusted))
      && (Merged(Responses(rs)).Ok? ==> Merged(Responses(rs)).value.adjusted == adjusted)
  {
    var oks := Successes(joined).oks;
    adjusted := UsedSuccesses(oks, cfg.preferAdjusted);
    SuccessesHaveData(joined);
    NamesAreHomogeneous(Filtered(Ordered(oks, cfg.preferAdjusted), cfg.preferAdjusted), oks, adjusted);
    HomogeneousMerge(Used(joined, cfg), oks, adjusted);
  }
}

/** From the providers' answers to one history: collect, order, filter, attribute, merge and resample. */
module History {
  import opened Wrappers
  import opened Candles
  import opened Sorting
  import opened OrderedMap
  import opened Merge
  import opened MergeProps
  import opened Resample
  import opened Buckets
  import opened Infer
  import opened Attribution
  import opened Blame

  datatype FetchError = NotFound | TimedOut | Failed(id: nat) | Data(error: DataError)

  /** One provider's attempt; `plan` is the resampling that its interval calls for. */
  datatype Attempt = Attempt(idx: nat, name: string, result: Result<Response, FetchError>, plan: Option<Plan>)

  datatype Success = Success(idx: nat, named: Named)

  datatype Resampling = NoResampling | ToDaily | ToWeekly

  datatype Config = Config(preferAdjusted: bool, resampling: Resampling, autoSubdailyToDaily: bool)

  datatype HistoryError =
    | NoHistory
    | AllTimedOut
    | AllFailed(errors: seq<(string, FetchError)>)
    | InconsistentCurrency(provider: string)
    | Unresampled(cause: DataError)

  function MetaOffset(m: Option<Meta>): Option<int> {
    if m.Some? then m.value.utcOffset else None
  }

  // ---- Collecting -------------------------------------------------------------------------

  datatype Collected = Collected(oks: seq<Success>, errors: seq<(string, FetchError)>)

  /** Empty answers and unknown instruments are neither successes nor errors. */
  function Collect1(c: Collected, a: Attempt): Collected {
    match a.result
    case Err(e) => if e.NotFound? then c else c.(errors := c.errors + [(a.name, e)])
    case Ok(hr) =>
      if hr.candles == [] then c
      else if a.plan.None? then c.(oks := c.oks + [Success(a.idx, Named(a.name, hr))])
      else
        match Planned(a.plan.value, hr.candles, MetaOffset(hr.meta))
        case Ok(cs) => c.(oks := c.oks + [Success(a.idx, Named(a.name, hr.(candles := cs)))])
        case Err(e) => c.(errors := c.errors + [(a.name, Data(e))])
  }

  function Successes(joined: seq<Attempt>): Collected {
    if joined == [] then Collected([], []) else Collect1(Successes(joined[..|joined| - 1]), joined[|joined| - 1])
  }

  method RunPlan(plan: Plan, candles: seq<Candle>, meta: Option<Meta>) returns (r: Result<seq<Candle>, DataError>)
    ensures r == Planned(plan, candles, MetaOffset(meta))
  {
    match plan {
      case Minutes(m) => r := ResampleToMinutesWithMeta(candles, m, MetaOffset(meta));
      case Daily => r := ResampleToDailyWithMeta(candles, MetaOffset(meta));
      case Weekly => r := ResampleToWeeklyWithMeta(candles, MetaOffset(meta));
    }
  }

  method CollectSuccesses(joined: seq<Attempt>) returns (c: Collected)
    ensures c == Successes(joined)
  {
    c := Collected([], []);
    for i := 0 to |joined|
      invariant c == Successes(joined[..i])
    {
      assert joined[..i + 1][..i] == joined[..i];
      var a := joined[i];
      match a.result {
        case Ok(hr) =>
          if hr.candles != [] {
            var candles := hr.candles;
            if a.plan.Some? {
              var planned := RunPlan(a.plan.value, candles, hr.meta);
              if planned.Err? {
                c := c.(errors := c.errors + [(a.name, Data(planned.error))]);
                continue;
              }
              candles := planned.value;
            }
            c := c.(oks := c.oks + [Success(a.idx, Named(a.name, hr.(candles := candles)))]);
          }
        case Err(e) =>
          if !e.NotFound? {
            c := c.(errors := c.errors + [(a.name, e)]);
          }
      }
    }
    assert joined[..|joined|] == joined;
  }

  // ---- Ordering and filtering -------------------------------------------------------------

  function Unadjusted(s: Success): int {
    if s.named.response.adjusted then 0 else 1
  }

  /** Adjusted answers first if that is preferred, then by the position of the provider. */
  predicate Precedes(a: Success, b: Success, preferAdjusted: bool) {
    if preferAdjusted && Unadjusted(a) != Unadjusted(b) then Unadjusted(a) < Unadjusted(b) else a.idx <= b.idx
  }

  function Ordered(xs: seq<Success>, preferAdjusted: bool): seq<Success> {
    SortBy(xs, (a: Success, b: Success) => Precedes(a, b, preferAdjusted))
  }

  lemma OrderedExactly(xs: seq<Success>, preferAdjusted: bool)
    ensures multiset(Ordered(xs, preferAdjusted)) == multiset(xs)
    ensures var ys := Ordered(xs, preferAdjusted);
      forall i, j | 0 <= i < j < |ys| :: Precedes(ys[i], ys[j], preferAdjusted)
  {
    var le := (a: Success, b: Success) => Precedes(a, b, preferAdjusted);
    SortBySorts(xs, le);
    var ys := Ordered(xs, preferAdjusted);
    forall i, j | 0 <= i < j < |ys| ensures Precedes(ys[i], ys[j], preferAdjusted) {
      assert le(ys[i], ys[j]);
    }
  }

  predicate AnyAdjusted(xs: seq<Success>) {
    exists s :: s in xs && s.named.response.adjusted
  }

  /** The flag that the used answers share. */
  function TargetAdjusted(xs: seq<Success>, preferAdjusted: bool): bool
    requires xs != []
  {
    if preferAdjusted && AnyAdjusted(xs) then true else xs[0].named.response.adjusted
  }

  function Filtered(xs: seq<Success>, preferAdjusted: bool): seq<Success> {
    if xs == [] then [] else WithKey(xs, Unadjusted, if TargetAdjusted(xs, preferAdjusted) then 0 else 1)
  }

  method FilterAdjustedness(xs: seq<Success>, preferAdjusted: bool) returns (out: seq<Success>)
    ensures out == Filtered(xs, preferAdjusted)
  {
    if xs == [] {
      return [];
    }
    var target := xs[0].named.response.adjusted;
    if preferAdjusted && AnyAdjusted(xs) {
      target := true;
    }
    out := WithKey(xs, Unadjusted, if target then 0 else 1);
  }

  lemma FilteredFacts(xs: seq<Success>, preferAdjusted: bool)
    requires xs != []
    ensures var out := Filtered(xs, preferAdjusted);
      && out != []
      && forall s :: s in out <==> s in xs && s.named.response.adjusted == TargetAdjusted(xs, preferAdjusted)
  {
    var out, target := Filtered(xs, preferAdjusted), TargetAdjusted(xs, preferAdjusted);
    forall s ensures s in out <==> s in xs && s.named.response.adjusted == target {
      WithKeyHas(xs, Unadjusted, if target then 0 else 1, s);
    }
    if target && !xs[0].named.response.adjusted {
      var s :| s in xs && s.named.response.adjusted;
      assert s in out;
    } else {
      assert xs[0] in out;
    }
  }

  /** `idx` lists, in order, the positions of exactly the answers with the flag, and `out` holds these answers. */
  ghost predicate Picks(xs: seq<Success>, out: seq<Success>, adjusted: bool, idx: seq<nat>) {
    && |idx| == |out|
    && (forall k | 0 <= k < |idx| :: idx[k] < |xs| && out[k] == xs[idx[k]])
    && (forall k, l | 0 <= k < l < |idx| :: idx[k] < idx[l])
    && forall i: nat | i < |xs| :: i in idx <==> xs[i].named.response.adjusted == adjusted
  }

  lemma {:induction false} WithFlagPicks(xs: seq<Success>, adjusted: bool) returns (idx: seq<nat>)
    ensures Picks(xs, WithKey(xs, Unadjusted, if adjusted then 0 else 1), adjusted, idx)
  {
    idx := [];
    if xs != [] {
      var n := |xs| - 1;
      idx := WithFlagPicks(xs[..n], adjusted);
      PicksNext(xs, WithKey(xs[..n], Unadjusted, if adjusted then 0 else 1), adjusted, idx);
      if xs[n].named.response.adjusted == adjusted {
        idx := idx + [n];
      }
    }
  }

  lemma PicksNext(xs: seq<Success>, out: seq<Success>, adjusted: bool, idx: seq<nat>)
    requires xs != [] && Picks(xs[..|xs| - 1], out, adjusted, idx)
    ensures var n := |xs| - 1;
      if xs[n].named.response.adjusted == adjusted then Picks(xs, out + [xs[n]], adjusted, idx + [n])
          else Picks(xs, out, adjusted, idx)
  {
    var n := |xs| - 1;
    var more := if xs[n].named.response.adjusted == adjusted then idx + [n] else idx;
    assert forall k | 0 <= k < |idx| :: idx[k] < n && xs[..n][idx[k]] == xs[idx[k]];
    forall i: nat | i < |xs| ensures i in more <==> xs[i].named.response.adjusted == adjusted {
      if i < n {
        assert xs[..n][i] == xs[i];
        assert i in more <==> i in idx;
      } else {
        assert n !in idx;
        assert i in more <==> xs[n].named.response.adjusted == adjusted;
      }
    }
  }

  /**
   * The answers that are used are those with one flag, all of them and in order: the adjusted ones, if that is
   * preferred and there is one, else those with the flag of the first.
   */
  lemma FilteredExactly(xs: seq<Success>, preferAdjusted: bool) returns (adjusted: bool, idx: seq<nat>)
    ensures Picks(xs, Filtered(xs, preferAdjusted), adjusted, idx)
    ensures xs != [] ==> Filtered(xs, preferAdjusted) != []
    ensures xs != [] ==>
              (adjusted <==> xs[0].named.response.adjusted || (preferAdjusted && AnyAdjusted(xs)))
  {
    adjusted := xs != [] && TargetAdjusted(xs, preferAdjusted);
    idx := WithFlagPicks(xs, adjusted);
    if xs != [] {
      FilteredFacts(xs, preferAdjusted);
    }
  }

  // ---- Merging ----------------------------------------------------------------------------

  /** A single answer is passed on as it is; a failed merge blames a provider. */
  ghost predicate MergedOrBlamed(rs: seq<Named>, r: Result<Response, HistoryError>) {
    if |rs| == 1 then r == Ok(rs[0].response)
    else
      match Merged(Responses(rs))
      case Ok(m) => r == Ok(m)
      case Err(_) => r.Err? && r.error.InconsistentCurrency? && Blames(rs, r.error.provider)
  }

  method MergeHistoryOrTag(results: seq<Named>) returns (r: Result<Response, HistoryError>)
    ensures MergedOrBlamed(results, r)
  {
    if |results| == 1 {
      return Ok(results[0].response);
    }
    var m := MergeHistory(Responses(results));
    if m.Ok? {
      var candles := new Candle[|m.value.candles|](i requires 0 <= i < |m.value.candles| => m.value.candles[i]);
      assert candles[..] == m.value.candles;
      StripUnadjusted(candles);
      StripTwice(Merge.Collect(Responses(results)).candles);
      return Ok(m.value.(candles := candles[..]));
    }
    var name := IdentifyFaultyProvider(results);
    return Err(InconsistentCurrency(name));
  }

  // ---- The configured resampling ----------------------------------------------------------

  ghost function FinalPlan(cfg: Config, cs: seq<Candle>): Option<Plan> {
    if cfg.resampling.ToWeekly? then Some(Weekly)
    else if cfg.resampling.ToDaily? || (cfg.autoSubdailyToDaily && Subdaily(DeltasOf(cs))) then Some(Daily)
    else None
  }

  ghost function FinalResampled(cfg: Config, m: Response): Result<Response, DataError> {
    match FinalPlan(cfg, m.candles)
    case None => Ok(m)
    case Some(plan) =>
      match Planned(plan, m.candles, MetaOffset(m.meta))
      case Ok(cs) => Ok(m.(candles := cs))
      case Err(e) => Err(e)
  }

  method ApplyFinalResample(cfg: Config, merged: Response) returns (r: Result<Response, DataError>)
    ensures r == FinalResampled(cfg, merged)
  {
    var willResample := !cfg.resampling.NoResampling?;
    if !willResample && cfg.autoSubdailyToDaily {
      willResample := IsSubdaily(merged.candles);
    }
    var candles := merged.candles;
    if cfg.resampling.ToWeekly? {
      var weekly := ResampleToWeeklyWithMeta(candles, MetaOffset(merged.meta));
      if weekly.Err? {
        return Err(weekly.error);
      }
      candles := weekly.value;
    } else {
      var daily := cfg.resampling.ToDaily?;
      if !daily && cfg.autoSubdailyToDaily {
        daily := IsSubdaily(candles);
      }
      if daily {
        var days := ResampleToDailyWithMeta(candles, MetaOffset(merged.meta));
        if days.Err? {
          return Err(days.error);
        }
        candles := days.value;
      }
    }
    if willResample {
      var out := new Candle[|candles|](i requires 0 <= i < |candles| => candles[i]);
      assert out[..] == candles;
      StripUnadjusted(out);
      ResampledHasNoRawCloses(merged.candles,
                              BucketsOf(if cfg.resampling.ToWeekly? then Weekly
                                        else Daily, MetaOffset(merged.meta)).value);
      candles := out[..];
    }
    return Ok(merged.(candles := candles));
  }

  /** A resampled series carries no raw closes, so stripping it again changes nothing. */
  lemma ResampledHasNoRawCloses(xs: seq<Candle>, b: Bucketing)
    ensures Resampled(xs, b).Ok? ==> StripAll(Resampled(xs, b).value) == Resampled(xs, b).value
  {
    var ys := Kept(SortByKey(xs, Ts), b);
    if ys != [] {
      ClosedHaveNoRawCloses(ys, b);
    }
  }

  lemma {:induction false} ClosedHaveNoRawCloses(ys: seq<Candle>, b: Bucketing)
    requires ys != []
    ensures forall c | c in Fold(ys, b).0 :: c.closeUnadj.None?
  {
    if |ys| > 1 {
      ClosedHaveNoRawCloses(ys[..|ys| - 1], b);
    }
  }

  // ---- The whole --------------------------------------------------------------------------

  function Names(xs: seq<Success>): seq<Named> {
    Mapped(xs, (s: Success) => s.named)
  }

  /** The answers that are used, in priority order. */
  function Used(joined: seq<Attempt>, cfg: Config): seq<Named> {
    Names(Filtered(Ordered(Successes(joined).oks, cfg.preferAdjusted), cfg.preferAdjusted))
  }

  ghost predicate AllTimeouts(errors: seq<(string, FetchError)>) {
    forall i | 0 <= i < |errors| :: errors[i].1.TimedOut?
  }

  /** The error when no attempt yielded data. */
  ghost function NoData(attempts: nat, errors: seq<(string, FetchError)>): HistoryError {
    if errors == [] then NoHistory
    else if |errors| == attempts && AllTimeouts(errors) then AllTimedOut
    else AllFailed(errors)
  }

  method ReportNoData(attempts: nat, errors: seq<(string, FetchError)>) returns (e: HistoryError)
    ensures e == NoData(attempts, errors)
  {
    if errors == [] {
      return NoHistory;
    }
    var allTimeouts := true;
    for i := 0 to |errors|
      invariant allTimeouts == AllTimeouts(errors[..i])
    {
      allTimeouts := allTimeouts && errors[i].1.TimedOut?;
    }
    assert errors[..|errors|] == errors;
    e := if |errors| == attempts && allTimeouts then AllTimedOut else AllFailed(errors);
  }

  /** Merging, attributing and resampling the used answers. */
  ghost predicate Finished(rs: seq<Named>, cfg: Config, r: Result<(Response, seq<Span>), HistoryError>) {
    exists m :: MergedOrBlamed(rs, m) && FinishedFrom(rs, cfg, m, r)
  }

  ghost predicate FinishedFrom(rs: seq<Named>, cfg: Config, m: Result<Response, HistoryError>,
                               r: Result<(Response, seq<Span>), HistoryError>)
  {
    match m
    case Err(e) => r == Err(e)
    case Ok(h) =>
      match FinalResampled(cfg, h)
      case Ok(h') => r == Ok((h', Spans(Timeline(rs))))
      case Err(e) => r == Err(Unresampled(e))
  }

  ghost predicate Finalized(joined: seq<Attempt>, cfg: Config, r: Result<(Response, seq<Span>), HistoryError>) {
    var c := Successes(joined);
    if c.oks == [] then r == Err(NoData(|joined|, c.errors)) else Finished(Used(joined, cfg), cfg, r)
  }

  method Finish(results: seq<Named>, cfg: Config) returns (r: Result<(Response, seq<Span>), HistoryError>)
    ensures Finished(results, cfg, r)
  {
    var attr := BuildAttribution(results);
    var merged := MergeHistoryOrTag(results);
    if merged.Err? {
      r := Err(merged.error);
    } else {
      var final := ApplyFinalResample(cfg, merged.value);
      r := if final.Ok? then Ok((final.value, attr)) else Err(Unresampled(final.error));
    }
    assert FinishedFrom(results, cfg, merged, r);
  }

  method FinalizeHistoryResults(joined: seq<Attempt>, cfg: Config)
      returns (r: Result<(Response, seq<Span>), HistoryError>)
    ensures Finalized(joined, cfg, r)
  {
    var c := CollectSuccesses(joined);
    if c.oks == [] {
      var e := ReportNoData(|joined|, c.errors);
      return Err(e);
    }
    var ordered := Ordered(c.oks, cfg.preferAdjusted);
    var filtered := FilterAdjustedness(ordered, cfg.preferAdjusted);
    r := Finish(Names(filtered), cfg);
  }
}

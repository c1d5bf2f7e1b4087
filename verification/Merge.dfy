/** Merging history responses in priority order: the first candle at a timestamp wins. */
module Merge {
  import opened Wrappers
  import opened Candles
  import opened Sorting
  import opened OrderedMap
  import Actions

  datatype Meta = Meta(source: int, utcOffset: Option<int>)

  datatype Response = Response(candles: seq<Candle>, actions: seq<Actions.Action>, adjusted: bool, meta: Option<Meta>)

  // ---- Merging on values ------------------------------------------------------------------

  /** Every candle is uniform and all share one currency. */
  ghost predicate Agree(cs: seq<Candle>) {
    forall c, d | c in cs && d in cs :: Uniform(c) && c.open.currency == d.open.currency
  }

  /** The currency of a series whose candles agree. */
  function CurrencyOf(cs: seq<Candle>): Option<Currency> {
    if cs == [] then None else Some(cs[0].open.currency)
  }

  datatype State = State(
    candles: seq<Candle>,
    adjustedAll: Option<bool>,
    firstAdjusted: Option<bool>,
    meta: Option<Meta>,
    fallback: Option<Meta>,
    actions: seq<Actions.Action>)

  const NOTHING := State([], None, None, None, None, [])

  function OrElse<T>(a: Option<T>, b: Option<T>): Option<T> {
    if a.Some? then a else b
  }

  /** A response contributes if it has a timestamp no earlier response had. */
  function Take(s: State, r: Response): State {
    var m := PutAll(s.candles, r.candles, Ts);
    if |m| > |s.candles| then
      State(m, Some((s.adjustedAll.Some? ==> s.adjustedAll.value) && r.adjusted),
            OrElse(s.firstAdjusted, Some(r.adjusted)),
            OrElse(s.meta, r.meta), OrElse(s.fallback, r.meta), s.actions + r.actions)
    else s.(candles := m, fallback := OrElse(s.fallback, r.meta), actions := s.actions + r.actions)
  }

  function Collect(rs: seq<Response>): State {
    if rs == [] then NOTHING else Take(Collect(rs[..|rs| - 1]), rs[|rs| - 1])
  }

  function Finish(s: State): Response {
    Response(StripAll(s.candles),
             Actions.Dedup(s.actions),
             s.firstAdjusted.Some? && s.adjustedAll.Some? && s.firstAdjusted.value && s.adjustedAll.value,
             if s.meta.None? && s.candles == [] then s.fallback else s.meta)
  }

  ghost function Merged(rs: seq<Response>): Result<Response, DataError> {
    if Agree(Collect(rs).candles) then Ok(Finish(Collect(rs))) else Err(MixedCurrency)
  }

  function AllCandles(rs: seq<Response>): seq<Candle> {
    if rs == [] then [] else AllCandles(rs[..|rs| - 1]) + rs[|rs| - 1].candles
  }

  lemma {:induction false} CollectIsFirstWins(rs: seq<Response>)
    ensures Collect(rs).candles == FirstWins(AllCandles(rs), Ts)
    ensures StrictlySorted(Collect(rs).candles, Ts)
  {
    PutAllFacts([], AllCandles(rs), Ts);
    if rs != [] {
      CollectIsFirstWins(rs[..|rs| - 1]);
      PutAllConcat([], AllCandles(rs[..|rs| - 1]), rs[|rs| - 1].candles, Ts);
    }
  }

  /** The first candles of all timestamps are uniform and share one currency. */
  ghost predicate WinnersAgree(all: seq<Candle>) {
    forall c, d | IsWinner(all, Ts, c) && IsWinner(all, Ts, d) :: Uniform(c) && c.open.currency == d.open.currency
  }

  ghost predicate IsStrippedWinner(all: seq<Candle>, c: Candle) {
    exists w :: IsWinner(all, Ts, w) && c == Strip(w)
  }

  /** A merge succeeds iff the winners agree; its candles are the winners, in order, without raw closes. */
  lemma MergedExactly(rs: seq<Response>)
    ensures Merged(rs).Ok? <==> WinnersAgree(AllCandles(rs))
    ensures Merged(rs).Ok? ==>
      var out := Merged(rs).value.candles;
      StrictlySorted(out, Ts) && forall c :: c in out <==> IsStrippedWinner(AllCandles(rs), c)
  {
    var all := AllCandles(rs);
    CollectIsFirstWins(rs);
    WinnersAreMembers(all);
    StripKeepsOrder(FirstWins(all, Ts));
    forall c ensures c in StripAll(FirstWins(all, Ts)) <==> IsStrippedWinner(all, c) {
      StrippedWinners(all, c);
    }
  }

  lemma WinnersAreMembers(all: seq<Candle>)
    ensures Agree(FirstWins(all, Ts)) <==> WinnersAgree(all)
    ensures StrictlySorted(FirstWins(all, Ts), Ts)
  {
    FirstWinsExactly(all, Ts);
  }

  lemma StrippedWinners(all: seq<Candle>, c: Candle)
    ensures c in StripAll(FirstWins(all, Ts)) <==> IsStrippedWinner(all, c)
  {
    FirstWinsExactly(all, Ts);
    StripMembers(FirstWins(all, Ts), c);
  }

  lemma StripKeepsOrder(cs: seq<Candle>)
    requires StrictlySorted(cs, Ts)
    ensures StrictlySorted(StripAll(cs), Ts)
  {
    var out := StripAll(cs);
    forall i, j | 0 <= i < j < |out| ensures Ts(out[i]) < Ts(out[j]) {
      assert Ts(cs[i]) < Ts(cs[j]);
    }
  }

  lemma StripMembers(cs: seq<Candle>, c: Candle)
    ensures c in StripAll(cs) <==> exists w :: w in cs && c == Strip(w)
  {
    var out := StripAll(cs);
    if c in out {
      var i :| 0 <= i < |out| && out[i] == c;
      assert cs[i] in cs;
    }
    if w :| w in cs && c == Strip(w) {
      var i :| 0 <= i < |cs| && cs[i] == w;
      assert out[i] == c;
    }
  }

  // ---- Merging as loops -------------------------------------------------------------------

  lemma DisagreementStays(m: seq<Candle>, cs: seq<Candle>)
    requires StrictlySorted(m, Ts) && Agree(PutAll(m, cs, Ts))
    ensures Agree(m)
  {
    PutAllFacts(m, cs, Ts);
  }

  lemma {:induction false} DisagreementFails(rs: seq<Response>, i: nat)
    requires i <= |rs| && !Agree(Collect(rs[..i]).candles)
    ensures Merged(rs) == Err(MixedCurrency)
    decreases |rs| - i
  {
    if i == |rs| {
      assert rs[..i] == rs;
    } else {
      assert rs[..i + 1][..i] == rs[..i];
      CollectIsFirstWins(rs[..i]);
      if Agree(Collect(rs[..i + 1]).candles) {
        DisagreementStays(Collect(rs[..i]).candles, rs[i].candles);
      }
      DisagreementFails(rs, i + 1);
    }
  }

  /** Adding a candle at a new timestamp keeps the map in agreement iff the candle is uniform and fits its currency. */
  lemma PutKeepsAgreement(m: seq<Candle>, c: Candle)
    requires StrictlySorted(m, Ts) && Agree(m)
    ensures Agree(PutAbsent(m, c, Ts)) <==>
            HasKey(m, Ts, c.ts) || (Uniform(c) && (m != [] ==> c.open.currency == m[0].open.currency))
  {
    PutAbsentFacts(m, c, Ts);
    if m != [] {
      assert m[0] in m;
    }
  }

  /** A disagreement among the first candles taken is one among all of them. */
  lemma DisagreementOfPrefix(m: seq<Candle>, cs: seq<Candle>, j: nat)
    requires StrictlySorted(m, Ts) && j <= |cs| && !Agree(PutAll(m, cs[..j], Ts))
    ensures !Agree(PutAll(m, cs, Ts))
  {
    assert cs[..j] + cs[j..] == cs;
    PutAllConcat(m, cs[..j], cs[j..], Ts);
    PutAllFacts(m, cs[..j], Ts);
    if Agree(PutAll(m, cs, Ts)) {
      DisagreementStays(PutAll(m, cs[..j], Ts), cs[j..]);
    }
  }

  /** Puts one candle into the map unless its timestamp is taken. */
  method TakeCandle(m: seq<Candle>, seriesCurrency: Option<Currency>, c: Candle)
    returns (r: Result<(seq<Candle>, Option<Currency>, bool), DataError>)
    requires StrictlySorted(m, Ts) && Agree(m) && seriesCurrency == CurrencyOf(m)
    ensures r.Ok? <==> Agree(PutAbsent(m, c, Ts))
    ensures r.Ok? ==> r.value == (PutAbsent(m, c, Ts), CurrencyOf(PutAbsent(m, c, Ts)), !HasKey(m, Ts, c.ts))
    ensures r.Ok? ==> StrictlySorted(r.value.0, Ts) && |r.value.0| == |m| + if r.value.2 then 1 else 0
    ensures r.Err? ==> r.error == MixedCurrency
  {
    PutAbsentFacts(m, c, Ts);
    PutKeepsAgreement(m, c);
    if HasKey(m, Ts, c.ts) {
      return Ok((m, seriesCurrency, false));
    }
    if !Uniform(c) {
      return Err(MixedCurrency);
    }
    var cur := seriesCurrency;
    if cur.Some? {
      if cur.value != c.open.currency {
        return Err(MixedCurrency);
      }
    } else {
      cur := Some(c.open.currency);
    }
    var after := Insert(m, c, Ts);
    assert c in after && after[0] in after;
    return Ok((after, cur, true));
  }

  /** Puts the j-th of the candles, after those before it. */
  method TakeNext(m: seq<Candle>, cs: seq<Candle>, j: nat, map': seq<Candle>, seriesCurrency: Option<Currency>)
    returns (r: Result<(seq<Candle>, Option<Currency>, bool), DataError>)
    requires StrictlySorted(m, Ts) && j < |cs| && map' == PutAll(m, cs[..j], Ts)
    requires StrictlySorted(map', Ts) && Agree(map') && seriesCurrency == CurrencyOf(map')
    ensures r.Err? ==> r.error == MixedCurrency && !Agree(PutAll(m, cs, Ts))
    ensures r.Ok? ==>
              && r.value.0 == PutAll(m, cs[..j + 1], Ts) && r.value.1 == CurrencyOf(r.value.0)
              && StrictlySorted(r.value.0, Ts) && Agree(r.value.0)
              && |r.value.0| == |map'| + if r.value.2 then 1 else 0
  {
    PutAllStep(m, cs, j, Ts);
    r := TakeCandle(map', seriesCurrency, cs[j]);
    if r.Err? {
      DisagreementOfPrefix(m, cs, j + 1);
    }
  }

  /** Puts one response's candles into the map. */
  method TakeCandles(m: seq<Candle>, seriesCurrency: Option<Currency>, cs: seq<Candle>)
    returns (r: Result<(seq<Candle>, Option<Currency>, bool), DataError>)
    requires StrictlySorted(m, Ts) && Agree(m) && seriesCurrency == CurrencyOf(m)
    ensures r.Ok? <==> Agree(PutAll(m, cs, Ts))
    ensures r.Ok? ==> r.value == (PutAll(m, cs, Ts), CurrencyOf(PutAll(m, cs, Ts)), |PutAll(m, cs, Ts)| > |m|)
    ensures r.Err? ==> r.error == MixedCurrency
  {
    var map', cur, contributed := m, seriesCurrency, false;
    var j := 0;
    while j < |cs|
      invariant j <= |cs| && map' == PutAll(m, cs[..j], Ts)
      invariant StrictlySorted(map', Ts) && Agree(map') && cur == CurrencyOf(map')
      invariant |map'| >= |m| && (contributed <==> |map'| > |m|)
    {
      var t := TakeNext(m, cs, j, map', cur);
      if t.Err? {
        return Err(t.error);
      }
      map', cur := t.value.0, t.value.1;
      contributed := contributed || t.value.2;
      j := j + 1;
    }
    assert cs[..j] == cs;
    return Ok((map', cur, contributed));
  }

  method TakeResponse(s: State, seriesCurrency: Option<Currency>, x: Response)
    returns (r: Result<(State, Option<Currency>), DataError>)
    requires StrictlySorted(s.candles, Ts) && Agree(s.candles) && seriesCurrency == CurrencyOf(s.candles)
    ensures r.Ok? <==> Agree(Take(s, x).candles)
    ensures r.Ok? ==> r.value == (Take(s, x), CurrencyOf(Take(s, x).candles))
    ensures r.Err? ==> r.error == MixedCurrency
  {
    var fallback := if s.fallback.None? then x.meta else s.fallback;
    var t := TakeCandles(s.candles, seriesCurrency, x.candles);
    if t.Err? {
      return Err(t.error);
    }
    var after := s.(candles := t.value.0, fallback := fallback, actions := s.actions + x.actions);
    if t.value.2 {
      var all := (if s.adjustedAll.Some? then s.adjustedAll.value else true) && x.adjusted;
      after := after.(adjustedAll := Some(all));
      if s.firstAdjusted.None? {
        after := after.(firstAdjusted := Some(x.adjusted));
      }
      if s.meta.None? {
        after := after.(meta := x.meta);
      }
    }
    return Ok((after, t.value.1));
  }

  method FinishMerge(s: State) returns (r: Response)
    ensures r == Finish(s)
  {
    var meta := if s.meta.None? && s.candles == [] then s.fallback else s.meta;
    var actions := Actions.DedupActions(s.actions);
    var adjusted := match (s.firstAdjusted, s.adjustedAll)
      case (Some(first), Some(all)) => first && all
      case _ => false;
    r := Response(StripAll(s.candles), actions, adjusted, meta);
  }

  method MergeHistory(responses: seq<Response>) returns (r: Result<Response, DataError>)
    ensures r == Merged(responses)
  {
    var s := NOTHING;
    var seriesCurrency: Option<Currency> := None;
    var i := 0;
    while i < |responses|
      invariant i <= |responses| && s == Collect(responses[..i])
      invariant StrictlySorted(s.candles, Ts) && Agree(s.candles) && seriesCurrency == CurrencyOf(s.candles)
    {
      assert responses[..i + 1][..i] == responses[..i];
      PutAllFacts(s.candles, responses[i].candles, Ts);
      var t := TakeResponse(s, seriesCurrency, responses[i]);
      i := i + 1;
      if t.Err? {
        DisagreementFails(responses, i);
        return Err(t.error);
      }
      s, seriesCurrency := t.value.0, t.value.1;
    }
    assert responses[..i] == responses;
    var merged := FinishMerge(s);
    return Ok(merged);
  }

  function Flatten(series: seq<seq<Candle>>): seq<Candle> {
    if series == [] then [] else Flatten(series[..|series| - 1]) + series[|series| - 1]
  }

  /** Checks and puts one series after `seen`, whose candles are in `m`. */
  method TakeChecked(m: seq<Candle>, seriesCurrency: Option<Currency>, s: seq<Candle>, ghost seen: seq<Candle>)
    returns (r: Result<(seq<Candle>, Option<Currency>), DataError>)
    requires Agree(seen) && seriesCurrency == CurrencyOf(seen) && (seen == [] ==> m == [])
    ensures r.Ok? <==> Agree(seen + s)
    ensures r.Ok? ==> r.value == (PutAll(m, StripAll(s), Ts), CurrencyOf(seen + s))
  {
    var map', cur, j := m, seriesCurrency, 0;
    assert seen + s[..0] == seen;
    while j < |s|
      invariant j <= |s|
      invariant map' == PutAll(m, StripAll(s[..j]), Ts)
      invariant Agree(seen + s[..j]) && cur == CurrencyOf(seen + s[..j])
      invariant seen + s[..j] == [] ==> map' == []
    {
      var c := s[j];
      AppendsOne(seen, s, j);
      AgreementGrows(seen + s[..j], c);
      if !Uniform(c) {
        return Err(MixedCurrency);
      }
      if cur.Some? {
        if cur.value != c.open.currency {
          return Err(MixedCurrency);
        }
      } else if map' == [] {
        cur := Some(c.open.currency);
      }
      map' := PutAbsent(map', c.(closeUnadj := None), Ts);
      j := j + 1;
    }
    assert s[..j] == s;
    return Ok((map', cur));
  }

  lemma AppendsOne(seen: seq<Candle>, s: seq<Candle>, j: nat)
    requires j < |s|
    ensures seen + s[..j + 1] == seen + s[..j] + [s[j]]
    ensures forall m ::
              PutAll(m, StripAll(s[..j + 1]), Ts) == PutAbsent(PutAll(m, StripAll(s[..j]), Ts), Strip(s[j]), Ts)
    ensures Agree(seen + s) ==> Agree(seen + s[..j] + [s[j]])
  {
    var longer := StripAll(s[..j + 1]);
    assert longer[..|longer| - 1] == StripAll(s[..j]);
    assert forall c | c in seen + s[..j] + [s[j]] :: c in seen + s;
  }

  /** Merges candle series only; every candle is checked, winner or not. */
  method MergeCandlesByPriority(series: seq<seq<Candle>>) returns (r: Result<seq<Candle>, DataError>)
    ensures r.Ok? <==> Agree(Flatten(series))
    ensures r.Ok? ==> r.value == FirstWins(StripAll(Flatten(series)), Ts)
  {
    var m: seq<Candle>, cur: Option<Currency>, i := [], None, 0;
    while i < |series|
      invariant i <= |series|
      invariant Agree(Flatten(series[..i])) && cur == CurrencyOf(Flatten(series[..i]))
      invariant m == FirstWins(StripAll(Flatten(series[..i])), Ts)
    {
      ghost var base := Flatten(series[..i]);
      assert series[..i + 1][..i] == series[..i];
      var t := TakeChecked(m, cur, series[i], base);
      if t.Err? {
        FlattenHas(series, i, series[i]);
        return Err(t.error);
      }
      assert StripAll(base + series[i]) == StripAll(base) + StripAll(series[i]);
      PutAllConcat([], StripAll(base), StripAll(series[i]), Ts);
      m, cur := t.value.0, t.value.1;
      i := i + 1;
    }
    assert series[..i] == series;
    return Ok(m);
  }

  lemma AgreementGrows(seen: seq<Candle>, c: Candle)
    requires Agree(seen)
    ensures Agree(seen + [c]) <==> Uniform(c) && (seen != [] ==> c.open.currency == seen[0].open.currency)
  {
    if seen != [] {
      assert seen[0] in seen + [c];
    }
    assert c in seen + [c];
  }

  /** What has been seen is part of everything, so its disagreement is a disagreement of the whole. */
  lemma {:induction false} FlattenHas(series: seq<seq<Candle>>, i: nat, part: seq<Candle>)
    requires i < |series| && part == series[i]
    ensures Agree(Flatten(series)) ==> Agree(Flatten(series[..i]) + part)
    decreases |series|
  {
    var init := series[..|series| - 1];
    if i == |series| - 1 {
      assert init == series[..i];
    } else {
      assert init[..i] == series[..i];
      FlattenHas(init, i, part);
      assert forall c | c in Flatten(init) :: c in Flatten(series);
    }
  }
}

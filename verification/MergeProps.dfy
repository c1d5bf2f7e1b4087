/** Merging is the same in one step or in several. */
module MergeProps {
  import opened Wrappers
  import opened Candles
  import opened Sorting
  import opened OrderedMap
  import opened Merge

  // ---- Raw closes do not matter -----------------------------------------------------------

  lemma PutAllStripped(m: seq<Candle>, cs: seq<Candle>)
    ensures PutAll(StripAll(m), StripAll(cs), Ts) == StripAll(PutAll(m, cs, Ts))
  {
    var strip: Candle -> Candle := (c: Candle) => Strip(c);
    PutAllMapped(m, cs, strip, Ts, Ts);
    assert forall xs :: StripAll(xs) == Mapped(xs, strip);
  }

  lemma StripTwice(cs: seq<Candle>)
    ensures StripAll(StripAll(cs)) == StripAll(cs)
  {
  }

  lemma AgreeStripped(cs: seq<Candle>)
    ensures Agree(StripAll(cs)) <==> Agree(cs)
  {
    var s := StripAll(cs);
    if Agree(cs) {
      forall c, d | c in s && d in s ensures Uniform(c) && c.open.currency == d.open.currency {
        var i :| 0 <= i < |s| && s[i] == c;
        var j :| 0 <= j < |s| && s[j] == d;
        assert cs[i] in cs && cs[j] in cs;
      }
    }
    if Agree(s) {
      forall c, d | c in cs && d in cs ensures Uniform(c) && c.open.currency == d.open.currency {
        var i :| 0 <= i < |cs| && cs[i] == c;
        var j :| 0 <= j < |cs| && cs[j] == d;
        assert s[i] in s && s[j] in s;
      }
    }
  }

  /** If all candles agree, merging series and merging responses give the same candles. */
  lemma SeriesMergeAgrees(rs: seq<Response>)
    requires Agree(AllCandles(rs))
    ensures Merged(rs).Ok? && Merged(rs).value.candles == FirstWins(StripAll(AllCandles(rs)), Ts)
  {
    var all := AllCandles(rs);
    CollectIsFirstWins(rs);
    FirstWinsExactly(all, Ts);
    forall c | c in FirstWins(all, Ts) ensures c in all {
      assert IsWinner(all, Ts, c);
    }
    PutAllStripped([], all);
    assert StripAll([]) == [];
  }

  // ---- Merging in stages ------------------------------------------------------------------

  /** What every state reached by taking responses satisfies. */
  ghost predicate WellFormed(s: State) {
    && StrictlySorted(s.candles, Ts)
    && (s.candles == [] <==> s.adjustedAll.None?) && (s.candles == [] <==> s.firstAdjusted.None?)
    && (s.candles == [] ==> s.meta.None?)
    && (s.adjustedAll == Some(true) ==> s.firstAdjusted == Some(true))
  }

  /** States that lead to the same result, whatever is taken next. */
  ghost predicate Alike(s: State, t: State) {
    && WellFormed(s) && WellFormed(t)
    && StripAll(s.candles) == StripAll(t.candles)
    && s.adjustedAll == t.adjustedAll && s.meta == t.meta
    && (s.candles == [] ==> s.fallback == t.fallback)
    && Actions.Dedup(s.actions) == Actions.Dedup(t.actions)
  }

  lemma TakeWellFormed(s: State, r: Response)
    requires WellFormed(s)
    ensures WellFormed(Take(s, r))
  {
    PutAllFacts(s.candles, r.candles, Ts);
  }

  lemma {:induction false} CollectWellFormed(rs: seq<Response>)
    ensures WellFormed(Collect(rs))
  {
    if rs != [] {
      CollectWellFormed(rs[..|rs| - 1]);
      TakeWellFormed(Collect(rs[..|rs| - 1]), rs[|rs| - 1]);
    }
  }

  lemma TakeAlike(s: State, t: State, r: Response)
    requires Alike(s, t)
    ensures Alike(Take(s, r), Take(t, r))
  {
    TakeWellFormed(s, r);
    TakeWellFormed(t, r);
    PutAllFacts(s.candles, r.candles, Ts);
    PutAllFacts(t.candles, r.candles, Ts);
    PutAllStripped(s.candles, r.candles);
    PutAllStripped(t.candles, r.candles);
    assert |s.candles| == |StripAll(s.candles)| == |t.candles|;
    assert |PutAll(s.candles, r.candles, Ts)| == |StripAll(PutAll(s.candles, r.candles, Ts))| ==
           |PutAll(t.candles, r.candles, Ts)|;
    Actions.DedupAbsorbs(s.actions, r.actions);
    Actions.DedupAbsorbs(t.actions, r.actions);
  }

  lemma FinishAlike(s: State, t: State)
    requires Alike(s, t)
    ensures Finish(s) == Finish(t) && (Agree(s.candles) <==> Agree(t.candles))
  {
    AgreeStripped(s.candles);
    AgreeStripped(t.candles);
    assert |StripAll(s.candles)| == |s.candles| && |StripAll(t.candles)| == |t.candles|;
  }

  /** A merged response stands for the responses it was merged from. */
  lemma MergedStandsFor(rs: seq<Response>)
    requires Merged(rs).Ok?
    ensures Alike(Collect(rs), Collect([Merged(rs).value]))
  {
    var s, r := Collect(rs), Merged(rs).value;
    CollectWellFormed(rs);
    CollectWellFormed([r]);
    assert [r][..|[r]| - 1] == [] && Collect([]) == NOTHING;
    var t := Collect([r]);
    assert t == Take(NOTHING, r);
    forall i, j | 0 <= i < j < |r.candles| ensures Ts(r.candles[i]) < Ts(r.candles[j]) {
      assert Ts(s.candles[i]) < Ts(s.candles[j]);
    }
    PutSorted(r.candles, Ts);
    StripTwice(s.candles);
    assert |r.candles| == |s.candles|;
    assert t.candles == r.candles;
    Actions.DedupComposes(s.actions, []);
    assert s.actions + [] == s.actions && [] + r.actions == r.actions;
    if s.candles != [] {
      assert PutAll([], r.candles, Ts) != [] && t.adjustedAll == Some(r.adjusted);
      assert r.adjusted == s.adjustedAll.value;
    } else {
      assert t.adjustedAll.None?;
    }
  }

  lemma {:induction false} CollectAlike(a: seq<Response>, b: seq<Response>, rest: seq<Response>)
    requires Alike(Collect(a), Collect(b))
    ensures Alike(Collect(a + rest), Collect(b + rest))
    decreases |rest|
  {
    if rest == [] {
      assert a + rest == a && b + rest == b;
    } else {
      var init := rest[..|rest| - 1];
      assert (a + rest)[..|a + rest| - 1] == a + init && (b + rest)[..|b + rest| - 1] == b + init;
      CollectAlike(a, b, init);
      TakeAlike(Collect(a + init), Collect(b + init), rest[|rest| - 1]);
    }
  }

  /**
   * Merging is associative: merging the first responses beforehand changes nothing in the result,
   * and if that first merge fails, so does the whole. With nothing left to merge it is idempotence.
   */
  lemma MergeInStages(first: seq<Response>, rest: seq<Response>)
    ensures Merged(first + rest) ==
            match Merged(first) case Ok(r) => Merged([r] + rest) case Err(e) => Err(e)
  {
    if Merged(first).Ok? {
      var r := Merged(first).value;
      MergedStandsFor(first);
      CollectAlike(first, [r], rest);
      FinishAlike(Collect(first + rest), Collect([r] + rest));
    } else {
      assert (first + rest)[..|first|] == first;
      DisagreementFails(first + rest, |first|);
    }
  }
}

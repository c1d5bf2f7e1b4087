/** Which provider each stretch of a merged history comes from, and that this agrees with the merge. */
module Attribution {
  import opened Candles
  import opened Sorting
  import opened OrderedMap
  import opened Merge
  import opened Buckets

  /** One provider's answer. */
  datatype Named = Named(name: string, response: Response)

  /** A timestamp of the merged timeline and the provider it comes from. */
  datatype Tag = Tag(ts: int, provider: string)

  /** First and last second of a stretch. */
  datatype Span = Span(provider: string, start: int, end: int)

  function TagTs(t: Tag): int { t.ts }

  function TagsOf(r: Named): seq<Tag> {
    Mapped(r.response.candles, (c: Candle) => Tag(c.ts, r.name))
  }

  function AllTags(rs: seq<Named>): seq<Tag> {
    if rs == [] then [] else AllTags(rs[..|rs| - 1]) + TagsOf(rs[|rs| - 1])
  }

  /** The map from timestamps to providers, filled in priority order. */
  function Timeline(rs: seq<Named>): seq<Tag> {
    FirstWins(AllTags(rs), TagTs)
  }

  function Responses(rs: seq<Named>): seq<Response> {
    Mapped(rs, (r: Named) => r.response)
  }

  /** Adds a tag to the last span if that names its provider, else in a span of its own. */
  function Extend(spans: seq<Span>, t: Tag): (r: seq<Span>)
    ensures r != []
  {
    var last := |spans| - 1;
    if spans != [] && spans[last].provider == t.provider
    then spans[..last] + [spans[last].(end := Seconds(t.ts))]
    else spans + [Span(t.provider, Seconds(t.ts), Seconds(t.ts))]
  }

  /** The stretches of a timeline in which the provider does not change. */
  function Spans(tl: seq<Tag>): seq<Span> {
    if tl == [] then [] else Extend(Spans(tl[..|tl| - 1]), tl[|tl| - 1])
  }

  method BuildTimeline(results: seq<Named>) returns (timeline: seq<Tag>)
    ensures timeline == Timeline(results)
  {
    timeline := [];
    for i := 0 to |results|
      invariant timeline == FirstWins(AllTags(results[..i]), TagTs)
    {
      var name, candles := results[i].name, results[i].response.candles;
      ghost var base, tags := timeline, TagsOf(results[i]);
      assert results[..i + 1][..i] == results[..i];
      for j := 0 to |candles|
        invariant timeline == PutAll(base, tags[..j], TagTs)
      {
        PutAllStep(base, tags, j, TagTs);
        timeline := PutAbsent(timeline, Tag(candles[j].ts, name), TagTs);
      }
      assert tags[..|candles|] == tags;
      PutAllConcat([], AllTags(results[..i]), tags, TagTs);
    }
    assert results[..|results|] == results;
  }

  method BuildAttribution(results: seq<Named>) returns (attr: seq<Span>)
    ensures attr == Spans(Timeline(results))
  {
    var timeline := BuildTimeline(results);
    attr := [];
    if timeline == [] {
      return;
    }
    var currentProvider := timeline[0].provider;
    var runStart, lastTs := Seconds(timeline[0].ts), Seconds(timeline[0].ts);
    assert timeline[..1][..0] == [];
    for i := 1 to |timeline|
      invariant Spans(timeline[..i]) == attr + [Span(currentProvider, runStart, lastTs)]
    {
      var tsSec := Seconds(timeline[i].ts);
      assert timeline[..i + 1][..i] == timeline[..i];
      if timeline[i].provider != currentProvider {
        attr := attr + [Span(currentProvider, runStart, lastTs)];
        currentProvider := timeline[i].provider;
        runStart := tsSec;
      }
      lastTs := tsSec;
    }
    assert timeline[..|timeline|] == timeline;
    attr := attr + [Span(currentProvider, runStart, lastTs)];
  }

  // ---- Spans and the timeline -------------------------------------------------------------

  /** The span names the tag's provider and its seconds contain the tag's. */
  predicate Covers(s: Span, t: Tag) {
    s.provider == t.provider && s.start <= Seconds(t.ts) <= s.end
  }

  /** Spans run forward, and neighbours name different providers. */
  ghost predicate Alternate(spans: seq<Span>) {
    && (forall i | 0 <= i < |spans| :: spans[i].start <= spans[i].end)
    && (forall i, j | 0 <= i < j < |spans| :: spans[i].end <= spans[j].start)
    && (forall i | 0 < i < |spans| :: spans[i - 1].provider != spans[i].provider)
  }

  ghost predicate Covered(spans: seq<Span>, t: Tag) {
    exists i :: 0 <= i < |spans| && Covers(spans[i], t)
  }

  ghost predicate AllCovered(spans: seq<Span>, tl: seq<Tag>) {
    forall k | 0 <= k < |tl| :: Covered(spans, tl[k])
  }

  /** Neighbours of the timeline that come from different providers fall into different seconds. */
  ghost predicate SwitchesBetweenSeconds(tl: seq<Tag>) {
    forall k | 0 < k < |tl| && tl[k - 1].provider != tl[k].provider :: Seconds(tl[k - 1].ts) < Seconds(tl[k].ts)
  }

  ghost predicate Disjoint(spans: seq<Span>) {
    forall i, j | 0 <= i < j < |spans| :: spans[i].end < spans[j].start
  }

  ghost predicate EndsWith(spans: seq<Span>, t: Tag) {
    spans != [] && spans[|spans| - 1].provider == t.provider && spans[|spans| - 1].end == Seconds(t.ts)
  }

  predicate EndsBy(spans: seq<Span>, second: int) {
    spans == [] || spans[|spans| - 1].end <= second
  }

  lemma ExtendAlternates(spans: seq<Span>, t: Tag)
    requires Alternate(spans) && EndsBy(spans, Seconds(t.ts))
    ensures Alternate(Extend(spans, t)) && EndsWith(Extend(spans, t), t) && Covered(Extend(spans, t), t)
  {
    var r, n := Extend(spans, t), |spans| - 1;
    assert Covers(r[|r| - 1], t);
    forall i, j | 0 <= i < j < |r| ensures r[i].end <= r[j].start {
      assert i < n ==> spans[i].end <= spans[n].start <= spans[n].end;
    }
  }

  lemma ExtendCovers(spans: seq<Span>, t: Tag, x: Tag)
    requires Covered(spans, x) && EndsBy(spans, Seconds(t.ts))
    ensures Covered(Extend(spans, t), x)
  {
    var i :| 0 <= i < |spans| && Covers(spans[i], x);
    assert Covers(Extend(spans, t)[i], x);
  }

  lemma ExtendDisjoint(spans: seq<Span>, t: Tag)
    requires Alternate(spans) && EndsBy(spans, Seconds(t.ts))
    ensures var n := |spans| - 1;
      Disjoint(Extend(spans, t)) <==>
      Disjoint(spans) && (spans != [] && spans[n].provider != t.provider ==> spans[n].end < Seconds(t.ts))
  {
    var r, n := Extend(spans, t), |spans| - 1;
    if spans != [] {
      if Disjoint(r) {
        forall i, j | 0 <= i < j < |spans| ensures spans[i].end < spans[j].start {
          assert r[i].end < r[j].start;
        }
        if spans[n].provider != t.provider {
          assert r[n].end < r[n + 1].start;
        }
      }
      if Disjoint(spans) && (spans[n].provider != t.provider ==> spans[n].end < Seconds(t.ts)) {
        forall i, j | 0 <= i < j < |r| ensures r[i].end < r[j].start {
          assert i < n ==> spans[i].end < spans[n].start <= spans[n].end;
        }
      }
    }
  }

  lemma {:induction false} SpansCover(tl: seq<Tag>)
    requires StrictlySorted(tl, TagTs)
    ensures Alternate(Spans(tl)) && (tl != [] ==> EndsWith(Spans(tl), tl[|tl| - 1]))
    ensures AllCovered(Spans(tl), tl)
  {
    if tl != [] {
      var init, t := tl[..|tl| - 1], tl[|tl| - 1];
      SpansCover(init);
      if init != [] {
        NextSecond(tl);
      }
      ExtendAlternates(Spans(init), t);
      forall k | 0 <= k < |tl| ensures Covered(Spans(tl), tl[k]) {
        if k < |init| {
          assert Covered(Spans(init), init[k]);
          ExtendCovers(Spans(init), t, init[k]);
        }
      }
    }
  }

  lemma NextSecond(tl: seq<Tag>)
    requires StrictlySorted(tl, TagTs) && |tl| >= 2
    ensures Seconds(tl[|tl| - 2].ts) <= Seconds(tl[|tl| - 1].ts)
  {
    assert TagTs(tl[|tl| - 2]) < TagTs(tl[|tl| - 1]);
    SecondsMonotone(tl[|tl| - 2].ts, tl[|tl| - 1].ts);
  }

  lemma SwitchesStep(tl: seq<Tag>)
    requires |tl| >= 2
    ensures var n := |tl| - 1;
      SwitchesBetweenSeconds(tl) <==>
      SwitchesBetweenSeconds(tl[..n]) &&
          (tl[n - 1].provider != tl[n].provider ==> Seconds(tl[n - 1].ts) < Seconds(tl[n].ts))
  {
    var n := |tl| - 1;
    assert forall k | 0 <= k < n :: tl[..n][k] == tl[k];
    if SwitchesBetweenSeconds(tl) {
      forall k | 0 < k < n && tl[k - 1].provider != tl[k].provider ensures Seconds(tl[k - 1].ts) < Seconds(tl[k].ts) {
      }
    }
  }

  lemma {:induction false} DisjointIff(tl: seq<Tag>)
    requires StrictlySorted(tl, TagTs)
    ensures Disjoint(Spans(tl)) <==> SwitchesBetweenSeconds(tl)
  {
    if |tl| == 1 {
      assert tl[..0] == [];
    } else if |tl| > 1 {
      var init, t := tl[..|tl| - 1], tl[|tl| - 1];
      DisjointIff(init);
      SpansCover(init);
      NextSecond(tl);
      ExtendDisjoint(Spans(init), t);
      SwitchesStep(tl);
    }
  }

  /** Whole-second timestamps are enough for disjoint spans. */
  lemma WholeSecondsSwitch(tl: seq<Tag>)
    requires StrictlySorted(tl, TagTs) && forall k | 0 <= k < |tl| :: tl[k].ts % NANOS == 0
    ensures SwitchesBetweenSeconds(tl)
  {
    forall k | 0 < k < |tl| ensures Seconds(tl[k - 1].ts) < Seconds(tl[k].ts) {
      assert TagTs(tl[k - 1]) < TagTs(tl[k]);
    }
  }

  /** In disjoint spans each second lies in at most one span. */
  lemma DisjointMeansUnique(spans: seq<Span>, s: int, i: nat, j: nat)
    requires Disjoint(spans) && i < |spans| && j < |spans|
    requires spans[i].start <= s <= spans[i].end && spans[j].start <= s <= spans[j].end
    ensures i == j
  {
  }

  // ---- The timeline and the merge ---------------------------------------------------------

  /** A candle and the position of the response that offers it. */
  datatype Offer = Offer(result: nat, candle: Candle)

  function OfferTs(o: Offer): int { o.candle.ts }

  function OffersOf(rs: seq<Named>, i: nat): seq<Offer>
    requires i < |rs|
  {
    Mapped(rs[i].response.candles, (c: Candle) => Offer(i, c))
  }

  function AllOffers(rs: seq<Named>): seq<Offer> {
    if rs == [] then [] else AllOffers(rs[..|rs| - 1]) + OffersOf(rs, |rs| - 1)
  }

  function CandleOf(o: Offer): Candle { o.candle }

  function TagOf(rs: seq<Named>): Offer -> Tag {
    (o: Offer) => Tag(o.candle.ts, if o.result < |rs| then rs[o.result].name else "")
  }

  lemma {:induction false} OffersAreCandles(rs: seq<Named>)
    ensures AllCandles(Responses(rs)) == Mapped(AllOffers(rs), CandleOf)
  {
    if rs != [] {
      var init := rs[..|rs| - 1];
      OffersAreCandles(init);
      assert Responses(rs)[..|rs| - 1] == Responses(init);
    }
  }

  lemma {:induction false} OffersAreTags(rs: seq<Named>)
    ensures AllTags(rs) == Mapped(AllOffers(rs), TagOf(rs))
    ensures forall o | o in AllOffers(rs) :: o.result < |rs|
  {
    if rs != [] {
      var n := |rs| - 1;
      var init := rs[..n];
      var before, last := AllOffers(init), OffersOf(rs, n);
      OffersAreTags(init);
      forall k | 0 <= k < |before| ensures AllTags(init)[k] == TagOf(rs)(before[k]) {
        assert before[k] in before && AllTags(init)[k] == TagOf(init)(before[k]);
      }
      assert TagsOf(rs[n]) == Mapped(last, TagOf(rs));
      assert Mapped(before + last, TagOf(rs)) == AllTags(init) + TagsOf(rs[n]);
    }
  }

  predicate HasTime(r: Named, ts: int) {
    exists j :: 0 <= j < |r.response.candles| && r.response.candles[j].ts == ts
  }

  /** The first candle at `ts` of the first result that has one. */
  ghost predicate FirstOffer(rs: seq<Named>, o: Offer) {
    && o.result < |rs|
    && (forall i | 0 <= i < o.result :: !HasTime(rs[i], o.candle.ts))
    && FirstAt(rs[o.result].response.candles, o.candle)
  }

  ghost predicate FirstAt(cs: seq<Candle>, c: Candle) {
    exists j: nat :: WinsAt(cs, Ts, c, j)
  }

  lemma {:induction false} WinnersAreFirst(rs: seq<Named>, o: Offer)
    requires IsWinner(AllOffers(rs), OfferTs, o)
    ensures FirstOffer(rs, o)
  {
    var all := AllOffers(rs);
    var k: nat :| WinsAt(all, OfferTs, o, k);
    var n := |rs| - 1;
    var init, cs := rs[..n], rs[n].response.candles;
    var before, last := AllOffers(init), OffersOf(rs, n);
    if k < |before| {
      assert forall j | 0 <= j <= k :: before[j] == all[j];
      assert WinsAt(before, OfferTs, o, k);
      WinnersAreFirst(init, o);
    } else {
      var j := k - |before|;
      assert last[j] == o;
      forall j' | 0 <= j' < j ensures Ts(cs[j']) != Ts(o.candle) {
        assert OfferTs(all[|before| + j']) != OfferTs(o);
      }
      assert WinsAt(cs, Ts, o.candle, j);
      forall i | 0 <= i < n ensures !HasTime(rs[i], o.candle.ts) {
        forall p | 0 <= p < |before| ensures before[p].candle.ts != o.candle.ts {
          assert OfferTs(all[p]) != OfferTs(o);
        }
        if HasTime(init[i], o.candle.ts) {
          var p := OfferedBefore(init, i, o.candle.ts);
          assert false;
        }
      }
    }
  }

  lemma {:induction false} OfferedBefore(rs: seq<Named>, i: nat, ts: int) returns (p: nat)
    requires i < |rs| && HasTime(rs[i], ts)
    ensures p < |AllOffers(rs)| && AllOffers(rs)[p].candle.ts == ts
  {
    var init := rs[..|rs| - 1];
    if i < |init| {
      p := OfferedBefore(init, i, ts);
    } else {
      var j :| 0 <= j < |rs[i].response.candles| && rs[i].response.candles[j].ts == ts;
      p := |AllOffers(init)| + j;
      assert OffersOf(rs, i)[j].candle.ts == ts;
    }
  }

  /** The timeline and the winning candles are two views of the winning offers. */
  lemma TimelineIsMerge(rs: seq<Named>)
    ensures var offers := FirstWins(AllOffers(rs), OfferTs);
      && FirstWins(AllCandles(Responses(rs)), Ts) == Mapped(offers, CandleOf)
      && Timeline(rs) == Mapped(offers, TagOf(rs))
      && (forall o | o in offers :: FirstOffer(rs, o))
  {
    OffersAreCandles(rs);
    OffersAreTags(rs);
    FirstWinsMapped(AllOffers(rs), CandleOf, OfferTs, Ts);
    FirstWinsMapped(AllOffers(rs), TagOf(rs), OfferTs, TagTs);
    FirstWinsExactly(AllOffers(rs), OfferTs);
    forall o | o in FirstWins(AllOffers(rs), OfferTs) ensures FirstOffer(rs, o) {
      WinnersAreFirst(rs, o);
    }
  }

  /** The k-th tag describes the k-th merged candle: it names the result `i` whose first candle there was taken. */
  ghost predicate Describes(rs: seq<Named>, t: Tag, merged: Candle) {
    exists o :: FirstOffer(rs, o) && t == Tag(merged.ts, rs[o.result].name) && merged == Strip(o.candle)
  }

  ghost predicate AllDescribed(rs: seq<Named>, tl: seq<Tag>, merged: seq<Candle>) {
    |tl| == |merged| && forall k | 0 <= k < |tl| :: Describes(rs, tl[k], merged[k])
  }

  /**
   * The attribution agrees with the merge. The k-th merged candle is the first candle at its timestamp of the first
   * result that has one, and lies in a span that names this result; spans run forward and neighbours differ; they are
   * disjoint iff no switch of providers falls inside a second.
   */
  lemma AttributionAgrees(rs: seq<Named>)
    requires Merged(Responses(rs)).Ok?
    ensures var merged, tl, spans := Merged(Responses(rs)).value.candles, Timeline(rs), Spans(Timeline(rs));
      && AllDescribed(rs, tl, merged) && AllCovered(spans, tl)
      && Alternate(spans)
      && (Disjoint(spans) <==> SwitchesBetweenSeconds(tl))
  {
    var offers, tl := FirstWins(AllOffers(rs), OfferTs), Timeline(rs);
    TimelineIsMerge(rs);
    CollectIsFirstWins(Responses(rs));
    var merged := Merged(Responses(rs)).value.candles;
    FirstWinsExactly(AllTags(rs), TagTs);
    SpansCover(tl);
    DisjointIff(tl);
    forall k | 0 <= k < |tl| ensures Describes(rs, tl[k], merged[k]) {
      assert offers[k] in offers;
      assert merged[k] == Strip(offers[k].candle);
    }
  }

  predicate InSpan(s: Span, second: int) {
    s.start <= second <= s.end
  }

  /** Span `i` is the only one that the candle lies in, and names the first result that has the candle's timestamp. */
  ghost predicate InOnly(rs: seq<Named>, spans: seq<Span>, c: Candle, i: nat) {
    && i < |spans|
    && (forall j | 0 <= j < |spans| :: InSpan(spans[j], Seconds(c.ts)) <==> j == i)
    && exists o :: FirstOffer(rs, o) && c == Strip(o.candle) && spans[i].provider == rs[o.result].name
  }

  ghost predicate AttributedOnce(rs: seq<Named>, spans: seq<Span>, c: Candle) {
    exists i: nat :: InOnly(rs, spans, c, i)
  }

  lemma DisjointAttributesOnce(rs: seq<Named>, spans: seq<Span>, t: Tag, c: Candle)
    requires Disjoint(spans) && Describes(rs, t, c) && Covered(spans, t)
    ensures AttributedOnce(rs, spans, c)
  {
    var i :| 0 <= i < |spans| && Covers(spans[i], t);
    forall j | 0 <= j < |spans| ensures InSpan(spans[j], Seconds(c.ts)) <==> j == i {
      if InSpan(spans[j], Seconds(c.ts)) {
        DisjointMeansUnique(spans, Seconds(c.ts), i, j);
      }
    }
    assert InOnly(rs, spans, c, i);
  }

  lemma TwoSpansInOneSecond(rs: seq<Named>, spans: seq<Span>, t: Tag, u: Tag, c: Candle)
    requires Covered(spans, t) && Covered(spans, u) && t.provider != u.provider
    requires Seconds(t.ts) == Seconds(u.ts) == Seconds(c.ts)
    ensures !AttributedOnce(rs, spans, c)
  {
    var i :| 0 <= i < |spans| && Covers(spans[i], t);
    var j :| 0 <= j < |spans| && Covers(spans[j], u);
    assert InSpan(spans[i], Seconds(c.ts)) && InSpan(spans[j], Seconds(c.ts));
  }

  lemma DisjointIsOnce(rs: seq<Named>, spans: seq<Span>, tl: seq<Tag>, merged: seq<Candle>)
    requires AllDescribed(rs, tl, merged) && AllCovered(spans, tl) && Disjoint(spans)
    ensures forall c | c in merged :: AttributedOnce(rs, spans, c)
  {
    forall c | c in merged ensures AttributedOnce(rs, spans, c) {
      var k :| 0 <= k < |merged| && merged[k] == c;
      assert Describes(rs, tl[k], merged[k]) && Covered(spans, tl[k]);
      DisjointAttributesOnce(rs, spans, tl[k], c);
    }
  }

  lemma SwitchInsideSecond(rs: seq<Named>, spans: seq<Span>, tl: seq<Tag>, merged: seq<Candle>)
    requires AllDescribed(rs, tl, merged) && AllCovered(spans, tl) && StrictlySorted(tl, TagTs)
    requires !SwitchesBetweenSeconds(tl)
    ensures exists c :: c in merged && !AttributedOnce(rs, spans, c)
  {
    var k :| 0 < k < |tl| && tl[k - 1].provider != tl[k].provider && Seconds(tl[k - 1].ts) >= Seconds(tl[k].ts);
    assert TagTs(tl[k - 1]) < TagTs(tl[k]);
    SecondsMonotone(tl[k - 1].ts, tl[k].ts);
    assert Covered(spans, tl[k - 1]) && Covered(spans, tl[k]) && Describes(rs, tl[k], merged[k]);
    TwoSpansInOneSecond(rs, spans, tl[k - 1], tl[k], merged[k]);
    assert merged[k] in merged;
  }

  /**
   * Every merged candle lies in exactly one span, naming the result it comes from, iff no switch falls inside a second.
   */
  lemma AttributedOnceIff(rs: seq<Named>)
    requires Merged(Responses(rs)).Ok?
    ensures var merged, tl := Merged(Responses(rs)).value.candles, Timeline(rs);
      (forall c | c in merged :: AttributedOnce(rs, Spans(tl), c)) <==> SwitchesBetweenSeconds(tl)
  {
    var merged, tl := Merged(Responses(rs)).value.candles, Timeline(rs);
    AttributionAgrees(rs);
    FirstWinsExactly(AllTags(rs), TagTs);
    if SwitchesBetweenSeconds(tl) {
      DisjointIsOnce(rs, Spans(tl), tl, merged);
    } else {
      SwitchInsideSecond(rs, Spans(tl), tl, merged);
    }
  }

  /**
   * With whole-second timestamps every merged candle lies in exactly one span, which names the result it comes from.
   */
  lemma WholeSecondsAttributeOnce(rs: seq<Named>)
    requires Merged(Responses(rs)).Ok?
    requires forall c | c in Merged(Responses(rs)).value.candles :: c.ts % NANOS == 0
    ensures forall c | c in Merged(Responses(rs)).value.candles :: AttributedOnce(rs, Spans(Timeline(rs)), c)
  {
    var merged, tl := Merged(Responses(rs)).value.candles, Timeline(rs);
    AttributionAgrees(rs);
    FirstWinsExactly(AllTags(rs), TagTs);
    forall k | 0 <= k < |tl| ensures tl[k].ts % NANOS == 0 {
      assert Describes(rs, tl[k], merged[k]) && merged[k] in merged;
    }
    WholeSecondsSwitch(tl);
    AttributedOnceIff(rs);
  }
}

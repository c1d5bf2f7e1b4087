/** Two requests that show how a planned supervisor's startup fails early, and how it can never fail. */
module PlannedInputs {
  import opened Wrappers
  import opened Market
  import opened Sorting
  import opened Routing
  import opened RoutingProps
  import opened Planner
  import opened StreamPlan
  import opened StreamPlanProps
  import opened SupervisorProps
  import opened ControllerSpec
  import opened ControllerProps
  import opened StartupProps
  import opened PlannedStartup

  // ---- Strict rules for two symbols -------------------------------------------------------

  const KIND: AssetKind := "equity"
  const GROUP := Group(KIND, None)

  function Stock(s: Symbol): Instrument {
    Security(KIND, s, None)
  }

  function ForSymbol(s: Symbol): Selector {
    Selector(Some(s), None, None)
  }

  /** One strict rule for each of the symbols. */
  function TwoRules(a: Symbol, forA: seq<Key>, b: Symbol, forB: seq<Key>): Policy {
    Policy([Rule(ForSymbol(a), Ranked(forA), true), Rule(ForSymbol(b), Ranked(forB), true)], None)
  }

  lemma RuleFor(a: Symbol, forA: seq<Key>, b: Symbol, forB: seq<Key>)
    requires a != b
    ensures Effective(TwoRules(a, forA, b, forB), SymbolContext(a, GROUP)) == Some((Ranked(forA), true))
    ensures Effective(TwoRules(a, forA, b, forB), SymbolContext(b, GROUP)) == Some((Ranked(forB), true))
  {
    var rules := TwoRules(a, forA, b, forB).rules;
    assert rules[..1] == [rules[0]] && rules[..1][..0] == [];
    assert BestIndex(rules[..1], SymbolContext(a, GROUP)) == Some(0);
    assert BestIndex(rules[..1], SymbolContext(b, GROUP)) == None;
  }

  lemma RankedTwo(first: Key, second: Key)
    requires first != second
    ensures Ranked([first, second]).ranks == map[first := 0, second := 1]
  {
    assert [first, second][..1] == [first] && [first][..0] == [];
    assert Distinct([first]) == [first];
    assert Distinct([first, second]) == [first, second];
    assert RanksOf([first]) == map[first := 0];
  }

  lemma RankedOne(key: Key)
    ensures Ranked([key]).ranks == map[key := 0]
  {
    assert [key][..0] == [];
    assert Distinct([key]) == [key];
    assert RanksOf([key]) == map[][key := 0];
  }

  /** The score of a connector for both symbols. */
  lemma ScoreTwo(p: Policy, a: Symbol, b: Symbol, key: Key)
    ensures var ra, rb := ProviderRank(p, SymbolContext(a, GROUP), key), ProviderRank(p, SymbolContext(b, GROUP), key);
      var rankA := if ra.Some? then BetterRank(ra.value.0, Unlisted) else Unlisted;
      Score(p, [Stock(a), Stock(b)], GROUP, key) ==
      (if rb.Some? then BetterRank(rb.value.0, rankA) else rankA,
       (if ra.Some? then {a} else {}) + (if rb.Some? then {b} else {}))
  {
    var list := [Stock(a), Stock(b)];
    assert list[..1] == [Stock(a)] && [Stock(a)][..0] == [];
    assert ContextOf(Stock(a), GROUP) == SymbolContext(a, GROUP) &&
           ContextOf(Stock(b), GROUP) == SymbolContext(b, GROUP);
    var ra, rb := ProviderRank(p, SymbolContext(a, GROUP), key), ProviderRank(p, SymbolContext(b, GROUP), key);
    var (rank, symbols) := Score(p, [Stock(a)], GROUP, key);
    assert Score(p, [], GROUP, key) == (Unlisted, {});
    assert symbols == if ra.Some? then {a} else {};
    assert rank == if ra.Some? then BetterRank(ra.value.0, Unlisted) else Unlisted;
    assert list[1] == Stock(b);
    assert Score(p, list, GROUP, key).1 == symbols + if rb.Some? then {b} else {};
  }

  lemma TwoRequested(a: Symbol, b: Symbol)
    ensures Requested([Stock(a), Stock(b)]) == {a, b} && Stock(a) in [Stock(a), Stock(b)]
  {
    var list := [Stock(a), Stock(b)];
    assert list[0] in list && list[1] in list;
  }

  /** With a preference, and nothing rejected, the plan is one supervisor for each primary. */
  lemma ExplicitPlan(cs: seq<Connector>, p: Policy, a: Symbol, b: Symbol, bo: Backoff, e: Eligible,
                     r: Result<seq<Supervised>, StreamError>)
    requires EligibleProviders(cs, p, [Stock(a), Stock(b)], GROUP) == Ok(e) && e.union == {a, b}
    requires ListedFor(e, p, GROUP, Stock(a), 0)
    ensures HasExplicit(e, p, GROUP, [Stock(a), Stock(b)])
    ensures IsGroupPlan(cs, p, [Stock(a), Stock(b)], GROUP, bo, r) <==>
            r.Ok? && OnePerPrimary(r.value, e, p, GROUP, [Stock(a), Stock(b)], bo)
  {
    TwoRequested(a, b);
    assert a in e.union;
    assert StrictlyRejected(cs, p, [Stock(a), Stock(b)], GROUP, e) == {};
  }

  function Streamer(key: Key): Connector {
    Connector(key, true, {KIND})
  }

  // ---- A head and two providers for one symbol each ---------------------------------------

  predicate Different(a: Symbol, b: Symbol, p0: Key, p1: Key, p2: Key) {
    a != b && p0 != p1 && p0 != p2 && p1 != p2
  }

  /** The first connector is listed for both symbols, the others for one each, behind it. */
  function SplitPolicy(a: Symbol, b: Symbol, p0: Key, p1: Key, p2: Key): Policy {
    TwoRules(a, [p0, p1], b, [p0, p2])
  }

  lemma SplitRanks(a: Symbol, b: Symbol, p0: Key, p1: Key, p2: Key)
    requires Different(a, b, p0, p1, p2)
    ensures var p := SplitPolicy(a, b, p0, p1, p2);
      && ProviderRank(p, SymbolContext(a, GROUP), p0) == Some((Listed(0), true))
      && ProviderRank(p, SymbolContext(b, GROUP), p0) == Some((Listed(0), true))
      && ProviderRank(p, SymbolContext(a, GROUP), p1) == Some((Listed(1), true))
      && ProviderRank(p, SymbolContext(b, GROUP), p1) == None
      && ProviderRank(p, SymbolContext(a, GROUP), p2) == None
      && ProviderRank(p, SymbolContext(b, GROUP), p2) == Some((Listed(1), true))
  {
    RuleFor(a, [p0, p1], b, [p0, p2]);
    RankedTwo(p0, p1);
    RankedTwo(p0, p2);
  }

  function SplitEligible(a: Symbol, b: Symbol, p0: Key, p1: Key, p2: Key): Eligible {
    Eligible([Entry(0, p0), Entry(1, p1), Entry(2, p2)], [{a, b}, {a}, {b}], {a, b})
  }

  lemma InOrder(sorted: seq<Scored>)
    requires forall i, j | 0 <= i < j < |sorted| :: ScoresBefore(sorted[i], sorted[j])
    ensures SortBy(sorted, SCORE_ORDER) == sorted
  {
    SortByInOrder(sorted, SCORE_ORDER);
  }

  /** `s` is the score of connector `i`, which is a candidate. */
  ghost predicate IsScoreOf(cs: seq<Connector>, p: Policy, insts: seq<Instrument>, i: nat, s: Scored) {
    && i < |cs| && Candidate(cs[i], GROUP.kind) && s.entry == Entry(i, cs[i].key) && s.symbols != {}
    && Score(p, insts, GROUP, cs[i].key) == (s.minRank, s.symbols)
  }

  lemma ScoreNext(cs: seq<Connector>, p: Policy, insts: seq<Instrument>, i: nat, s: Scored)
    requires IsScoreOf(cs, p, insts, i, s)
    ensures ScoreAll(cs[..i + 1], p, insts, GROUP) == ScoreAll(cs[..i], p, insts, GROUP) + [s]
  {
    assert cs[..i + 1][..i] == cs[..i] && cs[..i + 1][i] == cs[i];
  }

  lemma CollectNext(scored: seq<Scored>, s: Scored)
    ensures var e := Collect(scored);
      Collect(scored + [s]) == Eligible(e.providers + [s.entry], e.symbols + [s.symbols], e.union + s.symbols)
  {
    assert (scored + [s])[..|scored|] == scored;
  }

  lemma TwoCollected(x: Scored, y: Scored)
    ensures Collect([x, y]) == Eligible([x.entry, y.entry], [x.symbols, y.symbols], x.symbols + y.symbols)
  {
    CollectNext([], x);
    CollectNext([x], y);
    assert [] + [x] == [x] && [x] + [y] == [x, y] && {} + x.symbols == x.symbols;
  }

  lemma TwoScores(cs: seq<Connector>, p: Policy, insts: seq<Instrument>, x: Scored, y: Scored)
    requires |cs| == 2 && IsScoreOf(cs, p, insts, 0, x) && IsScoreOf(cs, p, insts, 1, y) && ScoresBefore(x, y)
    ensures EligibleProviders(cs, p, insts, GROUP) ==
            Ok(Eligible([x.entry, y.entry], [x.symbols, y.symbols], x.symbols + y.symbols))
  {
    ScoreNext(cs, p, insts, 0, x);
    ScoreNext(cs, p, insts, 1, y);
    assert cs[..2] == cs && [] + [x] == [x] && [x] + [y] == [x, y];
    InOrder([x, y]);
    TwoCollected(x, y);
  }

  lemma ThreeScores(cs: seq<Connector>, p: Policy, insts: seq<Instrument>, x: Scored, y: Scored, z: Scored)
    requires |cs| == 3 && IsScoreOf(cs, p, insts, 0, x) && IsScoreOf(cs, p, insts, 1, y) &&
             IsScoreOf(cs, p, insts, 2, z)
    requires ScoresBefore(x, y) && ScoresBefore(y, z) && ScoresBefore(x, z)
    ensures EligibleProviders(cs, p, insts, GROUP) ==
            Ok(Eligible([x.entry, y.entry, z.entry], [x.symbols, y.symbols, z.symbols],
                        x.symbols + y.symbols + z.symbols))
  {
    ScoreNext(cs, p, insts, 0, x);
    ScoreNext(cs, p, insts, 1, y);
    ScoreNext(cs, p, insts, 2, z);
    assert cs[..3] == cs && [] + [x] == [x] && [x] + [y] == [x, y] && [x, y] + [z] == [x, y, z];
    InOrder([x, y, z]);
    TwoCollected(x, y);
    CollectNext([x, y], z);
    assert [x.entry, y.entry] + [z.entry] == [x.entry, y.entry, z.entry];
    assert [x.symbols, y.symbols] + [z.symbols] == [x.symbols, y.symbols, z.symbols];
  }

  function SplitConnectors(p0: Key, p1: Key, p2: Key): seq<Connector> {
    [Streamer(p0), Streamer(p1), Streamer(p2)]
  }

  lemma SplitScores(a: Symbol, b: Symbol, p0: Key, p1: Key, p2: Key)
    requires Different(a, b, p0, p1, p2)
    ensures var p, list := SplitPolicy(a, b, p0, p1, p2), [Stock(a), Stock(b)];
      && Score(p, list, GROUP, p0) == (Listed(0), {a, b})
      && Score(p, list, GROUP, p1) == (Listed(1), {a})
      && Score(p, list, GROUP, p2) == (Listed(1), {b})
  {
    var p := SplitPolicy(a, b, p0, p1, p2);
    SplitRanks(a, b, p0, p1, p2);
    ScoreTwo(p, a, b, p0);
    ScoreTwo(p, a, b, p1);
    ScoreTwo(p, a, b, p2);
    assert {a} + {b} == {a, b} && {a} + {} == {a} && {} + {b} == {b};
  }

  lemma SplitEligibleIs(a: Symbol, b: Symbol, p0: Key, p1: Key, p2: Key)
    requires Different(a, b, p0, p1, p2)
    ensures EligibleProviders(SplitConnectors(p0, p1, p2), SplitPolicy(a, b, p0, p1, p2), [Stock(a), Stock(b)], GROUP)
            == Ok(SplitEligible(a, b, p0, p1, p2))
  {
    var p, list := SplitPolicy(a, b, p0, p1, p2), [Stock(a), Stock(b)];
    var x, y := Scored(Listed(0), Entry(0, p0), {a, b}), Scored(Listed(1), Entry(1, p1), {a});
    var z := Scored(Listed(1), Entry(2, p2), {b});
    SplitScores(a, b, p0, p1, p2);
    ThreeScores(SplitConnectors(p0, p1, p2), p, list, x, y, z);
    assert {a, b} + {a} + {b} == {a, b};
  }

  /** The first provider is the primary of both symbols. */
  lemma SplitPrimary(a: Symbol, b: Symbol, p0: Key, p1: Key, p2: Key)
    requires Different(a, b, p0, p1, p2)
    ensures var e, p := SplitEligible(a, b, p0, p1, p2), SplitPolicy(a, b, p0, p1, p2);
      && Primary(e, p, GROUP, a) == Some(0) && Primary(e, p, GROUP, b) == Some(0)
      && SubGroup(e, p, GROUP, {a, b}, 0) == {a, b}
      && forall i: nat | i != 0 :: SubGroup(e, p, GROUP, {a, b}, i) == {}
  {
    var e, p := SplitEligible(a, b, p0, p1, p2), SplitPolicy(a, b, p0, p1, p2);
    SplitRanks(a, b, p0, p1, p2);
    forall s | s in {a, b} ensures Primary(e, p, GROUP, s) == Some(0) {
      assert SymbolRank(e, p, GROUP, s, 0) == Some(Listed(0));
      assert forall i | 0 < i < 3 && SymbolRank(e, p, GROUP, s, i).Some? ::
             SymbolRank(e, p, GROUP, s, i) == Some(Listed(1));
      assert IsPrimary(e, p, GROUP, s, 3, 0);
      PrimaryExactly(e, p, GROUP, s, 3);
      PrimaryIsUnique(e, p, GROUP, s, 3, 0, Primary(e, p, GROUP, s).value);
    }
  }

  function SplitSupervised(a: Symbol, b: Symbol, p0: Key, p1: Key, p2: Key, bo: Backoff): Supervised {
    SupervisedFor(SplitEligible(a, b, p0, p1, p2), [Stock(a), Stock(b)], 0, {a, b}, bo)
  }

  /** One supervisor requires both symbols; behind its head there is one provider for each. */
  lemma SplitChain(a: Symbol, b: Symbol, p0: Key, p1: Key, p2: Key, bo: Backoff)
    requires Different(a, b, p0, p1, p2)
    ensures var sup := SplitSupervised(a, b, p0, p1, p2, bo);
      sup.chain == [0, 1, 2] && sup.plan.required == {a, b} && sup.plan.allow == [{a, b}, {a}, {b}]
    ensures var plan := SplitSupervised(a, b, p0, p1, p2, bo).plan;
      && (forall s :: Capable(plan, 0, s) <==> s == a || s == b)
      && (forall s :: Capable(plan, 1, s) <==> s == a)
      && (forall s :: Capable(plan, 2, s) <==> s == b)
  {
    var e, list, chain := SplitEligible(a, b, p0, p1, p2), [Stock(a), Stock(b)], [0, 1, 2];
    ShortChains();
    SplitAllowed(a, b, p0, p1, p2);
    TwoRequested(a, b);
    SplitCapable(e, list, a, b, bo);
    assert PlanFor(e, list, chain, {a, b}, bo).allow == [{a, b}, {a}, {b}];
  }

  lemma ShortChains()
    ensures Chain(0, 3) == [0, 1, 2] && Chain(0, 2) == [0, 1] && Chain(1, 2) == [1, 0]
  {
    assert Others(0, 1) == [] && Others(0, 2) == [1] && Others(0, 3) == [1, 2];
    assert Others(1, 1) == [0] && Others(1, 2) == [0];
  }

  lemma SplitCapable(e: Eligible, list: seq<Instrument>, a: Symbol, b: Symbol, bo: Backoff)
    requires Requested(list) == {a, b}
    requires AllowedIn(e, 0, {a, b}) == {a, b} && AllowedIn(e, 1, {a, b}) == {a} && AllowedIn(e, 2, {a, b}) == {b}
    ensures var plan := PlanFor(e, list, [0, 1, 2], {a, b}, bo);
      && (forall s :: Capable(plan, 0, s) <==> s == a || s == b)
      && (forall s :: Capable(plan, 1, s) <==> s == a)
      && (forall s :: Capable(plan, 2, s) <==> s == b)
  {
    forall s, i: nat | i < 3
      ensures Capable(PlanFor(e, list, [0, 1, 2], {a, b}, bo), i, s) <==> s in AllowedIn(e, i, {a, b})
    {
      CapableInChain(e, list, [0, 1, 2], {a, b}, bo, i, s);
    }
  }

  lemma SplitAllowed(a: Symbol, b: Symbol, p0: Key, p1: Key, p2: Key)
    ensures var e := SplitEligible(a, b, p0, p1, p2);
      AllowedIn(e, 0, {a, b}) == {a, b} && AllowedIn(e, 1, {a, b}) == {a} && AllowedIn(e, 2, {a, b}) == {b}
  {
  }

  /** The router makes exactly this one supervisor. */
  lemma SplitPlan(a: Symbol, b: Symbol, p0: Key, p1: Key, p2: Key, bo: Backoff, r: Result<seq<Supervised>, StreamError>)
    requires Different(a, b, p0, p1, p2)
    ensures IsGroupPlan(SplitConnectors(p0, p1, p2), SplitPolicy(a, b, p0, p1, p2), [Stock(a), Stock(b)], GROUP, bo,
                        r) <==>
            r == Ok([SplitSupervised(a, b, p0, p1, p2, bo)])
  {
    var e, p, list := SplitEligible(a, b, p0, p1, p2), SplitPolicy(a, b, p0, p1, p2), [Stock(a), Stock(b)];
    SplitEligibleIs(a, b, p0, p1, p2);
    SplitRanks(a, b, p0, p1, p2);
    ExplicitPlan(SplitConnectors(p0, p1, p2), p, a, b, bo, e, r);
    if r.Ok? {
      SplitOnly(a, b, p0, p1, p2, bo, r.value);
    }
  }

  lemma OtherHead(out: seq<Supervised>, i: nat)
    requires |out| > 1 && forall k | 0 <= k < |out| :: out[k].chain != []
    requires forall k, l | 0 <= k < l < |out| && out[k].chain != [] && out[l].chain != [] ::
             out[k].chain[0] != out[l].chain[0]
    ensures exists k :: 0 <= k < |out| && out[k].chain[0] != i
  {
    assert out[0].chain[0] != out[1].chain[0];
  }

  lemma SplitOnly(a: Symbol, b: Symbol, p0: Key, p1: Key, p2: Key, bo: Backoff, out: seq<Supervised>)
    requires Different(a, b, p0, p1, p2)
    ensures var e, p, list := SplitEligible(a, b, p0, p1, p2), SplitPolicy(a, b, p0, p1, p2), [Stock(a), Stock(b)];
      OnePerPrimary(out, e, p, GROUP, list, bo) <==> out == [SplitSupervised(a, b, p0, p1, p2, bo)]
  {
    var e, p, list := SplitEligible(a, b, p0, p1, p2), SplitPolicy(a, b, p0, p1, p2), [Stock(a), Stock(b)];
    var sup := SplitSupervised(a, b, p0, p1, p2, bo);
    SplitPrimary(a, b, p0, p1, p2);
    SplitChain(a, b, p0, p1, p2, bo);
    assert list[0] in list && list[1] in list;
    assert Requested(list) * e.union == {a, b};
    if OnePerPrimary(out, e, p, GROUP, list, bo) {
      assert HasPrimary(out, 0);
      forall k | 0 <= k < |out| ensures out[k] == sup && out[k].chain[0] == 0 {
        assert ForPrimary(out[k], e, p, GROUP, list, {a, b}, bo);
      }
      if |out| > 1 {
        OtherHead(out, 0);
      }
    }
    if out == [sup] {
      assert out[0].chain[0] == 0;
      assert HasPrimary(out, 0);
    }
  }

  /** The head fails, and then the last provider: the startup fails, and the middle one's request stays in flight. */
  ghost predicate FailsTwice(plan: SupervisorSpec.Plan, run: seq<System>, labels: seq<Label>, s: Symbol) {
    && IsRun(run, labels, plan, 3, true) && |labels| == 2
    && labels[0].StartFailed? && labels[0].x < |run[0].inFlight| && run[0].inFlight[labels[0].x].id == 0
    && LastStartFails(run[1], labels[1], 3)
    && AnswersError(run[1], run[2]) && run[2].returned && exists y :: IsAsked(run[2], y, 1, s)
  }

  /**
   * In the planned supervisor the head fails, the two others are asked, the last one fails, and with it the startup,
   * although the request for the first symbol is still in flight.
   */
  lemma FailsWithRequestInFlight(a: Symbol, b: Symbol, p0: Key, p1: Key, p2: Key, bo: Backoff)
      returns (run: seq<System>, labels: seq<Label>)
    requires Different(a, b, p0, p1, p2)
    ensures FailsTwice(SplitSupervised(a, b, p0, p1, p2, bo).plan, run, labels, a)
  {
    SplitChain(a, b, p0, p1, p2, bo);
    run, labels := FailTwice(SplitSupervised(a, b, p0, p1, p2, bo).plan, a, b);
  }

  lemma FailTwice(plan: SupervisorSpec.Plan, a: Symbol, b: Symbol) returns (run: seq<System>, labels: seq<Label>)
    requires Headed(plan) && LowestCapable(plan, 0, a) && LowestBehindHead(plan, 1, a) && LowestBehindHead(plan, 2, b)
    ensures FailsTwice(plan, run, labels, a)
  {
    var start := Initial(plan, 3, true);
    FirstAsked(plan, 3, a);
    var x0: nat :| IsAsked(start, x0, 0, a);
    HeadFails(plan, 3, x0, "", 1, a);
    HeadFails(plan, 3, x0, "", 2, b);
    var mid := Apply(start, StartFailed(x0, ""));
    var x1: nat :| IsAsked(mid, x1, 2, b);
    labels := [StartFailed(x0, ""), StartFailed(x1, "")];
    run := RunOfTwo(plan, 3, labels[0], labels[1]);
    LastFails(plan, run, labels, a);
  }

  lemma RunOfTwo(plan: SupervisorSpec.Plan, n: nat, l0: Label, l1: Label) returns (run: seq<System>)
    requires Enabled(Initial(plan, n, true), l0) && IdsInRange(Initial(plan, n, true))
    requires var mid := Apply(Initial(plan, n, true), l0); Enabled(mid, l1) && IdsInRange(mid)
    ensures IsRun(run, [l0, l1], plan, n, true)
    ensures run[0] == Initial(plan, n, true) && run[1] == Apply(run[0], l0)
  {
    var start := Initial(plan, n, true);
    var mid := Apply(start, l0);
    run := [start, mid, Apply(mid, l1)];
  }

  lemma LastFails(plan: SupervisorSpec.Plan, run: seq<System>, labels: seq<Label>, a: Symbol)
    requires IsRun(run, labels, plan, 3, true) && |labels| == 2 && LastStartFails(run[1], labels[1], 3)
    requires run[1].sup.phase.Startup? && exists y :: IsAsked(run[1], y, 1, a)
    ensures AnswersError(run[1], run[2]) && run[2].returned && exists y :: IsAsked(run[2], y, 1, a)
  {
    StartupFailsExactly(run, labels, plan, 3, true, 1);
    OtherStays(run[1], run[2], labels[1].x, 1, a);
  }

  lemma OtherStays(before: System, after: System, x: nat, id: nat, s: Symbol)
    requires x < |before.inFlight| && after.inFlight == Without(before.inFlight, x) && before.inFlight[x].id != id
    requires exists y :: IsAsked(before, y, id, s)
    ensures exists y :: IsAsked(after, y, id, s)
  {
    var y: nat :| IsAsked(before, y, id, s);
    assert IsAsked(after, if y < x then y else y - 1, id, s);
  }

  lemma FirstAsked(plan: SupervisorSpec.Plan, n: nat, s: Symbol)
    requires n > 0 && LowestCapable(plan, 0, s)
    ensures exists x :: IsAsked(Initial(plan, n, true), x, 0, s)
  {
    var sys := Initial(plan, n, true);
    InitialRequestsPartition(plan, n, true, 0, s);
    var x :| 0 <= x < |sys.inFlight| && sys.inFlight[x].id == 0 && s in sys.inFlight[x].symbols;
    assert IsAsked(sys, x, 0, s);
  }

  // ---- One provider for each symbol -------------------------------------------------------

  /** Each connector is listed for one symbol only. */
  function ApartPolicy(a: Symbol, b: Symbol, p0: Key, p1: Key): Policy {
    TwoRules(a, [p0], b, [p1])
  }

  lemma ApartRanks(a: Symbol, b: Symbol, p0: Key, p1: Key)
    requires a != b && p0 != p1
    ensures var p := ApartPolicy(a, b, p0, p1);
      && ProviderRank(p, SymbolContext(a, GROUP), p0) == Some((Listed(0), true))
      && ProviderRank(p, SymbolContext(b, GROUP), p1) == Some((Listed(0), true))
      && ProviderRank(p, SymbolContext(a, GROUP), p1) == None
      && ProviderRank(p, SymbolContext(b, GROUP), p0) == None
  {
    RuleFor(a, [p0], b, [p1]);
    RankedOne(p0);
    RankedOne(p1);
  }

  function ApartConnectors(p0: Key, p1: Key): seq<Connector> {
    [Streamer(p0), Streamer(p1)]
  }

  function ApartEligible(a: Symbol, b: Symbol, p0: Key, p1: Key): Eligible {
    Eligible([Entry(0, p0), Entry(1, p1)], [{a}, {b}], {a, b})
  }

  lemma ApartScores(a: Symbol, b: Symbol, p0: Key, p1: Key)
    requires a != b && p0 != p1
    ensures var p, list := ApartPolicy(a, b, p0, p1), [Stock(a), Stock(b)];
      Score(p, list, GROUP, p0) == (Listed(0), {a}) && Score(p, list, GROUP, p1) == (Listed(0), {b})
  {
    var p := ApartPolicy(a, b, p0, p1);
    ApartRanks(a, b, p0, p1);
    ScoreTwo(p, a, b, p0);
    ScoreTwo(p, a, b, p1);
    assert {a} + {} == {a} && {} + {b} == {b};
  }

  lemma ApartEligibleIs(a: Symbol, b: Symbol, p0: Key, p1: Key)
    requires a != b && p0 != p1
    ensures EligibleProviders(ApartConnectors(p0, p1), ApartPolicy(a, b, p0, p1), [Stock(a), Stock(b)], GROUP)
            == Ok(ApartEligible(a, b, p0, p1))
  {
    var p, list := ApartPolicy(a, b, p0, p1), [Stock(a), Stock(b)];
    ApartScores(a, b, p0, p1);
    var x, y := Scored(Listed(0), Entry(0, p0), {a}), Scored(Listed(0), Entry(1, p1), {b});
    TwoScores(ApartConnectors(p0, p1), p, list, x, y);
    assert {a} + {b} == {a, b};
  }

  lemma ApartPrimary(a: Symbol, b: Symbol, p0: Key, p1: Key)
    requires a != b && p0 != p1
    ensures var e, p := ApartEligible(a, b, p0, p1), ApartPolicy(a, b, p0, p1);
      && SubGroup(e, p, GROUP, {a, b}, 0) == {a} && SubGroup(e, p, GROUP, {a, b}, 1) == {b}
      && forall i: nat | i > 1 :: SubGroup(e, p, GROUP, {a, b}, i) == {}
  {
    var e, p := ApartEligible(a, b, p0, p1), ApartPolicy(a, b, p0, p1);
    ApartRanks(a, b, p0, p1);
    assert IsPrimary(e, p, GROUP, a, 2, 0) && IsPrimary(e, p, GROUP, b, 2, 1);
    PrimaryExactly(e, p, GROUP, a, 2);
    PrimaryExactly(e, p, GROUP, b, 2);
    PrimaryIsUnique(e, p, GROUP, a, 2, 0, Primary(e, p, GROUP, a).value);
    PrimaryIsUnique(e, p, GROUP, b, 2, 1, Primary(e, p, GROUP, b).value);
  }

  function ApartSupervised(a: Symbol, b: Symbol, p0: Key, p1: Key, bo: Backoff): seq<Supervised> {
    var e, list := ApartEligible(a, b, p0, p1), [Stock(a), Stock(b)];
    [SupervisedFor(e, list, 0, {a}, bo), SupervisedFor(e, list, 1, {b}, bo)]
  }

  lemma ApartGroup(a: Symbol, b: Symbol, p0: Key, p1: Key, bo: Backoff, out: seq<Supervised>)
    requires a != b && p0 != p1
    ensures var e, p, list := ApartEligible(a, b, p0, p1), ApartPolicy(a, b, p0, p1), [Stock(a), Stock(b)];
      && Requested(list) * e.union == {a, b} && HasExplicit(e, p, GROUP, list)
      && (IsGroupPlan(ApartConnectors(p0, p1), p, list, GROUP, bo, Ok(out)) <==>
          OnePerPrimary(out, e, p, GROUP, list, bo))
  {
    var e, p, list := ApartEligible(a, b, p0, p1), ApartPolicy(a, b, p0, p1), [Stock(a), Stock(b)];
    ApartEligibleIs(a, b, p0, p1);
    ApartRanks(a, b, p0, p1);
    TwoRequested(a, b);
    ExplicitPlan(ApartConnectors(p0, p1), p, a, b, bo, e, Ok(out));
  }

  /** The router makes two supervisors. */
  lemma ApartPlan(a: Symbol, b: Symbol, p0: Key, p1: Key, bo: Backoff)
    requires a != b && p0 != p1
    ensures IsGroupPlan(ApartConnectors(p0, p1), ApartPolicy(a, b, p0, p1), [Stock(a), Stock(b)], GROUP, bo,
                        Ok(ApartSupervised(a, b, p0, p1, bo)))
  {
    var out := ApartSupervised(a, b, p0, p1, bo);
    var e, p, list := ApartEligible(a, b, p0, p1), ApartPolicy(a, b, p0, p1), [Stock(a), Stock(b)];
    ApartGroup(a, b, p0, p1, bo, out);
    ApartPrimary(a, b, p0, p1);
    TwoPrimaries(out, e, p, list, bo, a, b);
  }

  lemma TwoPrimaries(out: seq<Supervised>, e: Eligible, p: Policy, list: seq<Instrument>, bo: Backoff, a: Symbol,
                     b: Symbol)
    requires Requested(list) * e.union == {a, b}
    requires SubGroup(e, p, GROUP, {a, b}, 0) == {a} && SubGroup(e, p, GROUP, {a, b}, 1) == {b}
    requires forall i: nat | i > 1 :: SubGroup(e, p, GROUP, {a, b}, i) == {}
    requires out == [SupervisedFor(e, list, 0, {a}, bo), SupervisedFor(e, list, 1, {b}, bo)]
    ensures OnePerPrimary(out, e, p, GROUP, list, bo)
  {
    assert out[0].chain[0] == 0 && out[1].chain[0] == 1;
    assert HasPrimary(out, 0) && HasPrimary(out, 1);
  }

  /** Whatever happens, neither supervisor of such a plan reports a failure. */
  lemma ApartNeverFails(a: Symbol, b: Symbol, p0: Key, p1: Key, bo: Backoff, out: seq<Supervised>, k: nat)
    requires a != b && p0 != p1
    requires IsGroupPlan(ApartConnectors(p0, p1), ApartPolicy(a, b, p0, p1), [Stock(a), Stock(b)], GROUP, bo,
                         Ok(out)) && k < |out|
    ensures !CanFail(out[k].plan, |out[k].chain|)
  {
    var e, p, list := ApartEligible(a, b, p0, p1), ApartPolicy(a, b, p0, p1), [Stock(a), Stock(b)];
    ApartGroup(a, b, p0, p1, bo, out);
    ApartPrimary(a, b, p0, p1);
    ApartRanks(a, b, p0, p1);
    ApartEligibleIs(a, b, p0, p1);
    PlannedCanFail(ApartConnectors(p0, p1), p, list, GROUP, bo, out, k);
    assert ForPrimary(out[k], e, p, GROUP, list, {a, b}, bo);
    ApartLast(a, b, p0, p1, out[k].chain[0]);
  }

  /** The last provider of a chain is not ranked for the symbol of its head. */
  lemma ApartLast(a: Symbol, b: Symbol, p0: Key, p1: Key, head: nat)
    requires a != b && p0 != p1
    ensures var e, p, chain := ApartEligible(a, b, p0, p1), ApartPolicy(a, b, p0, p1), Chain(head, 2);
      !RankedForSome(e, p, GROUP, chain[|chain| - 1], SubGroup(e, p, GROUP, {a, b}, head))
  {
    ApartPrimary(a, b, p0, p1);
    ShortChains();
    ApartUnranked(a, b, p0, p1);
  }

  lemma ApartUnranked(a: Symbol, b: Symbol, p0: Key, p1: Key)
    requires a != b && p0 != p1
    ensures var e, p := ApartEligible(a, b, p0, p1), ApartPolicy(a, b, p0, p1);
      && !RankedForSome(e, p, GROUP, 1, {a}) && !RankedForSome(e, p, GROUP, 0, {b})
      && forall i :: !RankedForSome(e, p, GROUP, i, {})
  {
    ApartRanks(a, b, p0, p1);
  }
}

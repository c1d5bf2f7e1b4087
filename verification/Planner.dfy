/** The stream providers eligible for a group of instruments, best first, and the symbols each may stream. */
module Planner {
  import opened Wrappers
  import opened Market
  import opened Sorting
  import opened Routing
  import opened RoutingProps

  datatype Connector = Connector(key: Key, streams: bool, kinds: set<AssetKind>)

  /** Providers in priority order, the symbols allowed to each, and all of these together. */
  datatype Eligible = Eligible(providers: seq<Entry>, symbols: seq<set<Symbol>>, union: set<Symbol>)

  datatype StreamError = StrictSymbolsRejected(rejected: set<Symbol>) | Unsupported | NoInstruments

  datatype Scored = Scored(minRank: Rank, entry: Entry, symbols: set<Symbol>)

  /** A kind, and the exchange of the instruments that name none. */
  datatype Group = Group(kind: AssetKind, exchange: Option<Exchange>)

  function ExchangeOf(inst: Instrument): Option<Exchange> {
    if inst.Security? then inst.exchange else None
  }

  function ContextOf(inst: Instrument, g: Group): Context {
    Context(if inst.Security? then Some(inst.symbol) else None, Some(g.kind),
            if ExchangeOf(inst).Some? then ExchangeOf(inst) else g.exchange)
  }

  predicate Candidate(c: Connector, kind: AssetKind) {
    c.streams && kind in c.kinds
  }

  /** The policy admits the connector for the instrument. */
  predicate Admits(p: Policy, inst: Instrument, g: Group, key: Key) {
    ProviderRank(p, ContextOf(inst, g), key).Some?
  }

  function BetterRank(a: Rank, b: Rank): Rank {
    if RankLess(a, b) then a else b
  }

  /** The best rank over the instruments, and the symbols admitted. */
  function Score(p: Policy, insts: seq<Instrument>, g: Group, key: Key): (Rank, set<Symbol>) {
    if insts == [] then (Unlisted, {})
    else
      var (rank, symbols) := Score(p, insts[..|insts| - 1], g, key);
      var inst := insts[|insts| - 1];
      var r := ProviderRank(p, ContextOf(inst, g), key);
      if r.None? then (rank, symbols)
      else (BetterRank(r.value.0, rank), if inst.Security? then symbols + {inst.symbol} else symbols)
  }

  function ScoreAll(cs: seq<Connector>, p: Policy, insts: seq<Instrument>, g: Group): seq<Scored> {
    if cs == [] then []
    else
      var n := |cs| - 1;
      var (rank, symbols) := Score(p, insts, g, cs[n].key);
      ScoreAll(cs[..n], p, insts, g) +
      if Candidate(cs[n], g.kind) && symbols != {} then [Scored(rank, Entry(n, cs[n].key), symbols)] else []
  }

  predicate ScoresBefore(a: Scored, b: Scored) {
    RankLess(a.minRank, b.minRank) || (a.minRank == b.minRank && a.entry.idx <= b.entry.idx)
  }

  const SCORE_ORDER: (Scored, Scored) -> bool := (a, b) => ScoresBefore(a, b)

  function Collect(scored: seq<Scored>): Eligible {
    if scored == [] then Eligible([], [], {})
    else
      var e, s := Collect(scored[..|scored| - 1]), scored[|scored| - 1];
      Eligible(e.providers + [s.entry], e.symbols + [s.symbols], e.union + s.symbols)
  }

  ghost predicate SomeCandidate(cs: seq<Connector>, kind: AssetKind) {
    exists i :: 0 <= i < |cs| && Candidate(cs[i], kind)
  }

  predicate SomeoneAdmits(cs: seq<Connector>, p: Policy, inst: Instrument, g: Group) {
    exists i :: 0 <= i < |cs| && Candidate(cs[i], g.kind) && Admits(p, inst, g, cs[i].key)
  }

  function RejectedSymbols(cs: seq<Connector>, p: Policy, insts: seq<Instrument>, g: Group): set<Symbol> {
    set inst | inst in insts && inst.Security? && !SomeoneAdmits(cs, p, inst, g) :: inst.symbol
  }

  ghost function EligibleProviders(cs: seq<Connector>, p: Policy, insts: seq<Instrument>,
                                   g: Group): Result<Eligible, StreamError> {
    var scored := ScoreAll(cs, p, insts, g);
    if scored != [] then Ok(Collect(SortBy(scored, SCORE_ORDER)))
    else if SomeCandidate(cs, g.kind) && RejectedSymbols(cs, p, insts, g) != {}
    then Err(StrictSymbolsRejected(RejectedSymbols(cs, p, insts, g)))
    else Err(Unsupported)
  }

  method ScoreOne(policy: ProviderPolicy, insts: seq<Instrument>, g: Group, key: Key)
      returns (rank: Rank, symbols: set<Symbol>)
    ensures (rank, symbols) == Score(policy.Value(), insts, g, key)
  {
    rank, symbols := Unlisted, {};
    for i := 0 to |insts|
      invariant (rank, symbols) == Score(policy.Value(), insts[..i], g, key)
    {
      assert insts[..i + 1][..i] == insts[..i];
      var r := policy.Rank(ContextOf(insts[i], g), key);
      if r.Some? {
        if insts[i].Security? {
          symbols := symbols + {insts[i].symbol};
        }
        if RankLess(r.value.0, rank) {
          rank := r.value.0;
        }
      }
    }
    assert insts[..|insts|] == insts;
  }

  method AnyAdmits(cs: seq<Connector>, policy: ProviderPolicy, inst: Instrument, g: Group) returns (any: bool)
    ensures any <==> SomeoneAdmits(cs, policy.Value(), inst, g)
  {
    for i := 0 to |cs|
      invariant !exists j :: 0 <= j < i && Candidate(cs[j], g.kind) && Admits(policy.Value(), inst, g, cs[j].key)
    {
      if Candidate(cs[i], g.kind) {
        var r := policy.Rank(ContextOf(inst, g), cs[i].key);
        if r.Some? {
          return true;
        }
      }
    }
    return false;
  }

  method CheckNoneScored(cs: seq<Connector>, policy: ProviderPolicy, insts: seq<Instrument>, g: Group)
      returns (e: StreamError)
    ensures e == if SomeCandidate(cs, g.kind) && RejectedSymbols(cs, policy.Value(), insts, g) != {}
                 then StrictSymbolsRejected(RejectedSymbols(cs, policy.Value(), insts, g))
                 else Unsupported
  {
    if exists i :: 0 <= i < |cs| && Candidate(cs[i], g.kind) {
      var rejected: set<Symbol> := {};
      for i := 0 to |insts|
        invariant rejected == RejectedSymbols(cs, policy.Value(), insts[..i], g)
      {
        assert insts[..i + 1] == insts[..i] + [insts[i]];
        var any := AnyAdmits(cs, policy, insts[i], g);
        if !any && insts[i].Security? {
          rejected := rejected + {insts[i].symbol};
        }
      }
      assert insts[..|insts|] == insts;
      if rejected != {} {
        return StrictSymbolsRejected(rejected);
      }
    }
    return Unsupported;
  }

  method CollectEligible(scored: seq<Scored>) returns (e: Eligible)
    ensures e == Collect(scored)
  {
    var providers: seq<Entry>, symbols: seq<set<Symbol>>, union: set<Symbol> := [], [], {};
    for i := 0 to |scored|
      invariant Eligible(providers, symbols, union) == Collect(scored[..i])
    {
      assert scored[..i + 1][..i] == scored[..i];
      union := union + scored[i].symbols;
      providers := providers + [scored[i].entry];
      symbols := symbols + [scored[i].symbols];
    }
    assert scored[..|scored|] == scored;
    e := Eligible(providers, symbols, union);
  }

  method FindEligible(cs: seq<Connector>, policy: ProviderPolicy, insts: seq<Instrument>, g: Group)
    returns (r: Result<Eligible, StreamError>)
    ensures r == EligibleProviders(cs, policy.Value(), insts, g)
  {
    var scored: seq<Scored> := [];
    for i := 0 to |cs|
      invariant scored == ScoreAll(cs[..i], policy.Value(), insts, g)
    {
      assert cs[..i + 1][..i] == cs[..i];
      if !cs[i].streams || g.kind !in cs[i].kinds {
        continue;
      }
      var rank, symbols := ScoreOne(policy, insts, g, cs[i].key);
      if symbols != {} {
        scored := scored + [Scored(rank, Entry(i, cs[i].key), symbols)];
      }
    }
    assert cs[..|cs|] == cs;
    if scored == [] {
      var e := CheckNoneScored(cs, policy, insts, g);
      return Err(e);
    }
    var e := CollectEligible(SortBy(scored, SCORE_ORDER));
    r := Ok(e);
  }

  // ---- What the plan means ----------------------------------------------------------------

  predicate AllowedSymbol(p: Policy, insts: seq<Instrument>, g: Group, key: Key, s: Symbol) {
    exists inst :: inst in insts && inst.Security? && inst.symbol == s && Admits(p, inst, g, key)
  }

  /** `rank` is the best the connector has for any instrument that admits it. */
  ghost predicate IsBestRank(p: Policy, insts: seq<Instrument>, g: Group, key: Key, rank: Rank) {
    && (forall inst | inst in insts && Admits(p, inst, g, key) ::
          RankAtMost(rank, ProviderRank(p, ContextOf(inst, g), key).value.0))
    && (rank.Listed? ==> exists inst :: inst in insts && Admits(p, inst, g, key) &&
                                        rank == ProviderRank(p, ContextOf(inst, g), key).value.0)
  }

  lemma {:induction false} ScoreMeans(p: Policy, insts: seq<Instrument>, g: Group, key: Key)
    ensures var (rank, symbols) := Score(p, insts, g, key);
      && (forall s :: s in symbols <==> AllowedSymbol(p, insts, g, key, s))
      && IsBestRank(p, insts, g, key, rank)
  {
    if insts != [] {
      var init, inst := insts[..|insts| - 1], insts[|insts| - 1];
      ScoreMeans(p, init, g, key);
      assert insts == init + [inst];
      assert inst in insts;
    }
  }

  ghost predicate IsScored(cs: seq<Connector>, p: Policy, insts: seq<Instrument>, g: Group, s: Scored) {
    var i := s.entry.idx;
    && i < |cs| && s.entry.key == cs[i].key && Candidate(cs[i], g.kind)
    && s.symbols != {} && (s.minRank, s.symbols) == Score(p, insts, g, s.entry.key)
  }

  lemma {:induction false} ScoreAllMembers(cs: seq<Connector>, p: Policy, insts: seq<Instrument>, g: Group)
    ensures forall s :: s in ScoreAll(cs, p, insts, g) <==> IsScored(cs, p, insts, g, s)
  {
    if cs != [] {
      var n := |cs| - 1;
      var before, all := ScoreAll(cs[..n], p, insts, g), ScoreAll(cs, p, insts, g);
      ScoreAllMembers(cs[..n], p, insts, g);
      var (rank, symbols) := Score(p, insts, g, cs[n].key);
      forall s ensures s in all <==> IsScored(cs, p, insts, g, s) {
        assert s in all <==>
               s in before || (Candidate(cs[n], g.kind) && symbols != {} &&
                               s == Scored(rank, Entry(n, cs[n].key), symbols));
      }
    }
  }

  lemma {:induction false} ScoreAllDistinct(cs: seq<Connector>, p: Policy, insts: seq<Instrument>, g: Group)
    ensures NoDuplicates(ScoreAll(cs, p, insts, g))
  {
    if cs != [] {
      var n := |cs| - 1;
      var before := ScoreAll(cs[..n], p, insts, g);
      ScoreAllDistinct(cs[..n], p, insts, g);
      ScoreAllMembers(cs[..n], p, insts, g);
      forall i | 0 <= i < |before| ensures before[i].entry.idx < n {
        assert before[i] in before;
      }
    }
  }

  lemma {:induction false} CollectMeans(scored: seq<Scored>)
    ensures var e := Collect(scored);
      && |e.providers| == |e.symbols| == |scored|
      && (forall i | 0 <= i < |scored| :: e.providers[i] == scored[i].entry && e.symbols[i] == scored[i].symbols)
      && (forall s :: s in e.union <==> exists i :: 0 <= i < |scored| && s in scored[i].symbols)
  {
    if scored != [] {
      var n := |scored| - 1;
      CollectMeans(scored[..n]);
      forall s ensures s in Collect(scored).union <==> exists i :: 0 <= i < |scored| && s in scored[i].symbols {
        if s in Collect(scored[..n]).union {
          var i :| 0 <= i < n && s in scored[..n][i].symbols;
          assert s in scored[i].symbols;
        }
        if i :| 0 <= i < |scored| && s in scored[i].symbols {
          assert i < n ==> s in scored[..n][i].symbols;
        }
      }
    }
  }

  lemma ScoreOrderIsTotal()
    ensures TotalPreorder(SCORE_ORDER)
  {
    forall a, b ensures SCORE_ORDER(a, b) || SCORE_ORDER(b, a) {
      assert ScoresBefore(a, b) || ScoresBefore(b, a);
    }
    forall a, b, c | SCORE_ORDER(a, b) && SCORE_ORDER(b, c) ensures SCORE_ORDER(a, c) {
      assert ScoresBefore(a, c);
    }
  }

  /** Provider `i` of the plan is a registered candidate that is allowed exactly its symbols, at least one. */
  ghost predicate IsPlanned(cs: seq<Connector>, p: Policy, insts: seq<Instrument>, g: Group, e: Eligible, i: nat)
    requires i < |e.providers| == |e.symbols|
  {
    var entry := e.providers[i];
    && entry.idx < |cs| && entry.key == cs[entry.idx].key && Candidate(cs[entry.idx], g.kind)
    && e.symbols[i] != {} && forall s :: s in e.symbols[i] <==> AllowedSymbol(p, insts, g, entry.key, s)
  }

  /** Provider `i` ranks strictly before provider `j`: by best rank, then by registration. */
  ghost predicate RanksBefore(p: Policy, insts: seq<Instrument>, g: Group, a: Entry, b: Entry) {
    exists ra, rb :: IsBestRank(p, insts, g, a.key, ra) && IsBestRank(p, insts, g, b.key, rb)
      && (RankLess(ra, rb) || (ra == rb && a.idx < b.idx))
  }

  ghost predicate Registered(e: Eligible, i: nat) {
    exists k :: 0 <= k < |e.providers| && e.providers[k].idx == i
  }

  lemma SortedScores(cs: seq<Connector>, p: Policy, insts: seq<Instrument>, g: Group) returns (sorted: seq<Scored>)
    ensures sorted == SortBy(ScoreAll(cs, p, insts, g), SCORE_ORDER)
    ensures forall s :: s in sorted <==> IsScored(cs, p, insts, g, s)
    ensures forall i, j | 0 <= i < j < |sorted| ::
            ScoresBefore(sorted[i], sorted[j]) && sorted[i].entry.idx != sorted[j].entry.idx
  {
    var all := ScoreAll(cs, p, insts, g);
    sorted := SortBy(all, SCORE_ORDER);
    ScoreOrderIsTotal();
    SortBySorts(all, SCORE_ORDER);
    SameMembers(sorted, all);
    ScoreAllMembers(cs, p, insts, g);
    ScoreAllDistinct(cs, p, insts, g);
    PermutationKeepsDistinct(all, sorted);
    forall i, j | 0 <= i < j < |sorted|
      ensures ScoresBefore(sorted[i], sorted[j]) && sorted[i].entry.idx != sorted[j].entry.idx
    {
      assert SCORE_ORDER(sorted[i], sorted[j]);
      assert sorted[i] in sorted && sorted[j] in sorted;
    }
  }

  lemma EligibleProvider(cs: seq<Connector>, p: Policy, insts: seq<Instrument>, g: Group, i: nat)
    requires EligibleProviders(cs, p, insts, g).Ok? && i < |EligibleProviders(cs, p, insts, g).value.providers|
    ensures var e := EligibleProviders(cs, p, insts, g).value;
      |e.providers| == |e.symbols| && IsPlanned(cs, p, insts, g, e, i)
  {
    var sorted := SortedScores(cs, p, insts, g);
    CollectMeans(sorted);
    assert sorted[i] in sorted;
    ScoreMeans(p, insts, g, sorted[i].entry.key);
  }

  lemma EligiblePair(cs: seq<Connector>, p: Policy, insts: seq<Instrument>, g: Group, i: nat, j: nat)
    requires EligibleProviders(cs, p, insts, g).Ok? && i < j < |EligibleProviders(cs, p, insts, g).value.providers|
    ensures var e := EligibleProviders(cs, p, insts, g).value; RanksBefore(p, insts, g, e.providers[i], e.providers[j])
  {
    var sorted := SortedScores(cs, p, insts, g);
    CollectMeans(sorted);
    var a, b := sorted[i], sorted[j];
    assert a in sorted && b in sorted;
    ScoreMeans(p, insts, g, a.entry.key);
    ScoreMeans(p, insts, g, b.entry.key);
    assert IsBestRank(p, insts, g, a.entry.key, a.minRank) && IsBestRank(p, insts, g, b.entry.key, b.minRank);
  }

  lemma CandidateIsRegistered(cs: seq<Connector>, p: Policy, insts: seq<Instrument>, g: Group, i: nat, s: Symbol)
    requires i < |cs| && Candidate(cs[i], g.kind) && AllowedSymbol(p, insts, g, cs[i].key, s)
    ensures EligibleProviders(cs, p, insts, g).Ok? && Registered(EligibleProviders(cs, p, insts, g).value, i)
    ensures s in EligibleProviders(cs, p, insts, g).value.union
  {
    var sorted := SortedScores(cs, p, insts, g);
    CollectMeans(sorted);
    ScoreMeans(p, insts, g, cs[i].key);
    var (rank, symbols) := Score(p, insts, g, cs[i].key);
    assert s in symbols;
    var scored := Scored(rank, Entry(i, cs[i].key), symbols);
    assert IsScored(cs, p, insts, g, scored);
    ScoreAllMembers(cs, p, insts, g);
    var k :| 0 <= k < |sorted| && sorted[k] == scored;
    assert Collect(sorted).providers[k].idx == i;
  }

  /**
   * The plan lists every candidate that is allowed some symbol, once, with exactly its symbols, strictly ordered by
   * best rank and registration; the union is that of all of them.
   */
  lemma EligibleExactly(cs: seq<Connector>, p: Policy, insts: seq<Instrument>, g: Group)
    requires EligibleProviders(cs, p, insts, g).Ok?
    ensures var e := EligibleProviders(cs, p, insts, g).value;
      && |e.providers| == |e.symbols|
      && (forall i | 0 <= i < |e.providers| :: IsPlanned(cs, p, insts, g, e, i))
      && (forall i, j | 0 <= i < j < |e.providers| :: RanksBefore(p, insts, g, e.providers[i], e.providers[j]))
      && (forall i, s | 0 <= i < |cs| && Candidate(cs[i], g.kind) && AllowedSymbol(p, insts, g, cs[i].key, s) ::
          Registered(e, i))
      && (forall s :: s in e.union <==> exists i :: 0 <= i < |e.symbols| && s in e.symbols[i])
  {
    var e := EligibleProviders(cs, p, insts, g).value;
    UnionOfSymbols(cs, p, insts, g);
    forall i | 0 <= i < |e.providers| ensures IsPlanned(cs, p, insts, g, e, i) {
      EligibleProvider(cs, p, insts, g, i);
    }
    forall i, j | 0 <= i < j < |e.providers| ensures RanksBefore(p, insts, g, e.providers[i], e.providers[j]) {
      EligiblePair(cs, p, insts, g, i, j);
    }
    forall i, s | 0 <= i < |cs| && Candidate(cs[i], g.kind) && AllowedSymbol(p, insts, g, cs[i].key, s)
      ensures Registered(e, i) {
      CandidateIsRegistered(cs, p, insts, g, i, s);
    }
  }

  lemma UnionOfSymbols(cs: seq<Connector>, p: Policy, insts: seq<Instrument>, g: Group)
    requires EligibleProviders(cs, p, insts, g).Ok?
    ensures var e := EligibleProviders(cs, p, insts, g).value;
      && |e.providers| == |e.symbols|
      && (forall s :: s in e.union <==> exists i :: 0 <= i < |e.symbols| && s in e.symbols[i])
  {
    CollectMeans(SortBy(ScoreAll(cs, p, insts, g), SCORE_ORDER));
  }
}

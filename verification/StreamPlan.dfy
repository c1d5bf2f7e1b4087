/** Splitting a group of instruments into supervisors: each symbol goes to the supervisor of its best provider. */
module StreamPlan {
  import opened Wrappers
  import opened Market
  import opened Sorting
  import opened Routing
  import opened Planner
  import SupervisorSpec

  datatype Backoff = Backoff(minMs: nat, maxMs: nat, factor: nat)

  /** A supervisor to be started: its providers, as positions among the eligible ones, and its plan. */
  datatype Supervised = Supervised(chain: seq<nat>, plan: SupervisorSpec.Plan)

  /** The instruments of a group have its kind and exchange. */
  ghost predicate InGroup(list: seq<Instrument>, g: Group) {
    forall inst | inst in list :: inst.kind == g.kind && ExchangeOf(inst) == g.exchange
  }

  predicate SecuritiesOnly(list: seq<Instrument>) {
    forall inst :: inst in list ==> inst.Security?
  }

  function SymbolContext(s: Symbol, g: Group): Context {
    Context(Some(s), Some(g.kind), g.exchange)
  }

  function Requested(list: seq<Instrument>): set<Symbol> {
    set inst | inst in list && inst.Security? :: inst.symbol
  }

  /** Rank of eligible provider `i` for a symbol that it is allowed. */
  function SymbolRank(e: Eligible, p: Policy, g: Group, s: Symbol, i: nat): Option<Rank> {
    if i < |e.providers| && i < |e.symbols| && s in e.symbols[i] &&
        ProviderRank(p, SymbolContext(s, g), e.providers[i].key).Some?
    then Some(ProviderRank(p, SymbolContext(s, g), e.providers[i].key).value.0)
    else None
  }

  /** No provider of the first `n` has a smaller (rank, position) for the symbol than `i`. */
  ghost predicate IsPrimary(e: Eligible, p: Policy, g: Group, s: Symbol, n: nat, i: nat) {
    && i < n && SymbolRank(e, p, g, s, i).Some?
    && forall j | 0 <= j < n && j != i && SymbolRank(e, p, g, s, j).Some? ::
         var ri, rj := SymbolRank(e, p, g, s, i).value, SymbolRank(e, p, g, s, j).value;
         RankLess(ri, rj) || (ri == rj && i < j)
  }

  function PrimaryAmong(e: Eligible, p: Policy, g: Group, s: Symbol, n: nat): Option<nat> {
    if n == 0 then None
    else
      var before, r := PrimaryAmong(e, p, g, s, n - 1), SymbolRank(e, p, g, s, n - 1);
      if r.None? then before
      else if before.Some? && SymbolRank(e, p, g, s, before.value).Some? &&
          !RankLess(r.value, SymbolRank(e, p, g, s, before.value).value)
      then before
      else Some(n - 1)
  }

  function Primary(e: Eligible, p: Policy, g: Group, s: Symbol): Option<nat> {
    PrimaryAmong(e, p, g, s, |e.providers|)
  }

  lemma {:induction false} PrimaryExactly(e: Eligible, p: Policy, g: Group, s: Symbol, n: nat)
    ensures match PrimaryAmong(e, p, g, s, n)
      case None => forall j | 0 <= j < n :: SymbolRank(e, p, g, s, j).None?
      case Some(i) => IsPrimary(e, p, g, s, n, i)
  {
    if n > 0 {
      PrimaryExactly(e, p, g, s, n - 1);
    }
  }

  lemma PrimaryIsUnique(e: Eligible, p: Policy, g: Group, s: Symbol, n: nat, i: nat, j: nat)
    requires IsPrimary(e, p, g, s, n, i) && IsPrimary(e, p, g, s, n, j)
    ensures i == j
  {
  }

  /** The symbols whose primary is provider `i`. */
  function SubGroup(e: Eligible, p: Policy, g: Group, wanted: set<Symbol>, i: nat): set<Symbol> {
    set s | s in wanted && Primary(e, p, g, s) == Some(i)
  }

  /** The primary first, then the others in order. */
  function Chain(primary: nat, n: nat): seq<nat> {
    [primary] + Others(primary, n)
  }

  function Others(primary: nat, n: nat): seq<nat> {
    if n == 0 then [] else Others(primary, n - 1) + if n - 1 != primary then [n - 1] else []
  }

  function AssignedTo(list: seq<Instrument>, allow: set<Symbol>): seq<Instrument> {
    if list == [] then []
    else
      AssignedTo(list[..|list| - 1], allow) +
      var inst := list[|list| - 1]; if inst.Security? && inst.symbol in allow then [inst] else []
  }

  function AllowedIn(e: Eligible, i: nat, group: set<Symbol>): set<Symbol> {
    if i < |e.symbols| then e.symbols[i] * group else {}
  }

  function PlanFor(e: Eligible, list: seq<Instrument>, chain: seq<nat>, group: set<Symbol>,
                   b: Backoff): SupervisorSpec.Plan {
    SupervisorSpec.Plan(
      seq(|chain|, k requires 0 <= k < |chain| => AssignedTo(list, AllowedIn(e, chain[k], group))),
      seq(|chain|, k requires 0 <= k < |chain| => AllowedIn(e, chain[k], group)),
      group,
      seq(|chain|, k => true),
      b.minMs, b.maxMs, if b.factor == 0 then 1 else b.factor)
  }

  function SupervisedFor(e: Eligible, list: seq<Instrument>, primary: nat, group: set<Symbol>, b: Backoff): Supervised {
    var chain := Chain(primary, |e.providers|);
    Supervised(chain, PlanFor(e, list, chain, group, b))
  }

  /** The policy lists eligible provider `i` for the instrument. */
  predicate ListedFor(e: Eligible, p: Policy, g: Group, inst: Instrument, i: nat) {
    && inst.Security? && i < |e.providers|
    && ProviderRank(p, SymbolContext(inst.symbol, g), e.providers[i].key).Some?
    && ProviderRank(p, SymbolContext(inst.symbol, g), e.providers[i].key).value.0.Listed?
  }

  ghost predicate HasExplicit(e: Eligible, p: Policy, g: Group, list: seq<Instrument>) {
    exists inst, i: nat :: inst in list && ListedFor(e, p, g, inst, i)
  }

  /** Without preferences one supervisor takes the whole group, its providers in their order. */
  function SharedFor(e: Eligible, list: seq<Instrument>, b: Backoff): Supervised {
    Supervised(
      seq(|e.providers|, k => k),
      SupervisorSpec.Plan(
        seq(|e.symbols|, k requires 0 <= k < |e.symbols| => AssignedTo(list, e.symbols[k])),
        e.symbols,
        Requested(list) * e.union,
        seq(|e.providers|, k => true),
        b.minMs, b.maxMs, if b.factor == 0 then 1 else b.factor))
  }

  /** Requested symbols that nobody eligible may stream and that the policy denies to every candidate. */
  function StrictlyRejected(cs: seq<Connector>, p: Policy, list: seq<Instrument>, g: Group, e: Eligible): set<Symbol> {
    set s | s in Requested(list) - e.union && Denied(cs, p, g, s)
  }

  predicate Denied(cs: seq<Connector>, p: Policy, g: Group, s: Symbol) {
    && (exists i :: 0 <= i < |cs| && Candidate(cs[i], g.kind))
    && !exists i :: 0 <= i < |cs| && Candidate(cs[i], g.kind) && ProviderRank(p, SymbolContext(s, g), cs[i].key).Some?
  }

  /** One supervisor for each provider that is the primary of some wanted symbol. */
  ghost predicate OnePerPrimary(out: seq<Supervised>, e: Eligible, p: Policy, g: Group, list: seq<Instrument>,
                                b: Backoff) {
    var wanted := Requested(list) * e.union;
    && (forall k | 0 <= k < |out| :: ForPrimary(out[k], e, p, g, list, wanted, b))
    && (forall i: nat | SubGroup(e, p, g, wanted, i) != {} :: HasPrimary(out, i))
    && (forall k, l | 0 <= k < l < |out| && out[k].chain != [] && out[l].chain != [] ::
        out[k].chain[0] != out[l].chain[0])
  }

  ghost predicate ForPrimary(sup: Supervised, e: Eligible, p: Policy, g: Group, list: seq<Instrument>,
                             wanted: set<Symbol>, b: Backoff) {
    && sup.chain != []
    && SubGroup(e, p, g, wanted, sup.chain[0]) != {}
    && sup == SupervisedFor(e, list, sup.chain[0], SubGroup(e, p, g, wanted, sup.chain[0]), b)
  }

  ghost predicate HasPrimary(out: seq<Supervised>, i: nat) {
    exists k :: 0 <= k < |out| && out[k].chain != [] && out[k].chain[0] == i
  }

  ghost predicate IsGroupPlan(cs: seq<Connector>, p: Policy, list: seq<Instrument>, g: Group, b: Backoff,
                              r: Result<seq<Supervised>, StreamError>)
  {
    var eligible := EligibleProviders(cs, p, list, g);
    if eligible.Err? then r == Err(eligible.error)
    else
      var e := eligible.value;
      if e.union == {} then r == Ok([])
      else if !SecuritiesOnly(list) then r == Err(Unsupported)
      else if StrictlyRejected(cs, p, list, g, e) != {} then r ==
          Err(StrictSymbolsRejected(StrictlyRejected(cs, p, list, g, e)))
      else if HasExplicit(e, p, g, list) then r.Ok? && OnePerPrimary(r.value, e, p, g, list, b)
      else r == Ok([SharedFor(e, list, b)])
  }

  // ---- The loops --------------------------------------------------------------------------

  predicate RankedBefore(a: (Rank, nat), b: (Rank, nat)) {
    RankLess(a.0, b.0) || (a.0 == b.0 && a.1 <= b.1)
  }

  const RANK_ORDER: ((Rank, nat), (Rank, nat)) -> bool := (a, b) => RankedBefore(a, b)

  lemma RankOrderIsTotal()
    ensures TotalPreorder(RANK_ORDER)
  {
    forall a, b ensures RANK_ORDER(a, b) || RANK_ORDER(b, a) {
      assert RankedBefore(a, b) || RankedBefore(b, a);
    }
    forall a, b, c | RANK_ORDER(a, b) && RANK_ORDER(b, c) ensures RANK_ORDER(a, c) {
      assert RankedBefore(a, c);
    }
  }

  function RankedUpTo(e: Eligible, p: Policy, g: Group, s: Symbol, n: nat): seq<(Rank, nat)> {
    if n == 0 then []
    else
      var r := SymbolRank(e, p, g, s, n - 1);
      RankedUpTo(e, p, g, s, n - 1) + if r.Some? then [(r.value, n - 1)] else []
  }

  lemma {:induction false} RankedMembers(e: Eligible, p: Policy, g: Group, s: Symbol, n: nat)
    ensures forall x :: x in RankedUpTo(e, p, g, s, n) <==> x.1 < n && SymbolRank(e, p, g, s, x.1) == Some(x.0)
  {
    if n > 0 {
      RankedMembers(e, p, g, s, n - 1);
    }
  }

  lemma SortedRanks(e: Eligible, p: Policy, g: Group, s: Symbol, n: nat) returns (sorted: seq<(Rank, nat)>)
    ensures sorted == SortBy(RankedUpTo(e, p, g, s, n), RANK_ORDER) && SortedBy(sorted, RANK_ORDER)
    ensures |sorted| == |RankedUpTo(e, p, g, s, n)|
    ensures forall x :: x in sorted <==> x.1 < n && SymbolRank(e, p, g, s, x.1) == Some(x.0)
  {
    var ranked := RankedUpTo(e, p, g, s, n);
    sorted := SortBy(ranked, RANK_ORDER);
    RankOrderIsTotal();
    SortBySorts(ranked, RANK_ORDER);
    SameMembers(sorted, ranked);
    RankedMembers(e, p, g, s, n);
  }

  /** The head of the sorted ranks is the primary. */
  lemma SortedHeadIsPrimary(e: Eligible, p: Policy, g: Group, s: Symbol, n: nat)
    ensures var sorted := SortBy(RankedUpTo(e, p, g, s, n), RANK_ORDER);
      && |sorted| == |RankedUpTo(e, p, g, s, n)|
      && PrimaryAmong(e, p, g, s, n) == if sorted == [] then None else Some(sorted[0].1)
  {
    var sorted := SortedRanks(e, p, g, s, n);
    PrimaryExactly(e, p, g, s, n);
    if sorted == [] {
      forall j | 0 <= j < n ensures SymbolRank(e, p, g, s, j).None? {
        NoneRanked(e, p, g, s, n, j);
      }
    } else {
      HeadIsPrimary(e, p, g, s, n, sorted);
      PrimaryIsUnique(e, p, g, s, n, sorted[0].1, PrimaryAmong(e, p, g, s, n).value);
    }
  }

  lemma NoneRanked(e: Eligible, p: Policy, g: Group, s: Symbol, n: nat, j: nat)
    requires RankedUpTo(e, p, g, s, n) == [] && j < n
    ensures SymbolRank(e, p, g, s, j).None?
  {
    RankedMembers(e, p, g, s, n);
    var r := SymbolRank(e, p, g, s, j);
    assert (if r.Some? then r.value else Unlisted, j) !in RankedUpTo(e, p, g, s, n);
  }

  lemma HeadIsPrimary(e: Eligible, p: Policy, g: Group, s: Symbol, n: nat, sorted: seq<(Rank, nat)>)
    requires sorted != [] && SortedBy(sorted, RANK_ORDER)
    requires forall x :: x in sorted <==> x.1 < n && SymbolRank(e, p, g, s, x.1) == Some(x.0)
    ensures IsPrimary(e, p, g, s, n, sorted[0].1)
  {
    var head := sorted[0];
    assert head in sorted;
    forall j | 0 <= j < n && j != head.1 && SymbolRank(e, p, g, s, j).Some?
      ensures var rj := SymbolRank(e, p, g, s, j).value; RankLess(head.0, rj) || (head.0 == rj && head.1 < j)
    {
      var x := (SymbolRank(e, p, g, s, j).value, j);
      assert x in sorted;
      var k :| 0 <= k < |sorted| && sorted[k] == x;
      assert RANK_ORDER(sorted[0], sorted[k]);
    }
  }

  method FindPrimary(e: Eligible, policy: ProviderPolicy, g: Group, s: Symbol) returns (primary: Option<nat>)
    requires |e.providers| == |e.symbols|
    ensures primary == Primary(e, policy.Value(), g, s)
  {
    var ranked: seq<(Rank, nat)> := [];
    for i := 0 to |e.providers|
      invariant ranked == RankedUpTo(e, policy.Value(), g, s, i)
    {
      if s !in e.symbols[i] {
        continue;
      }
      var r := policy.Rank(SymbolContext(s, g), e.providers[i].key);
      if r.Some? {
        ranked := ranked + [(r.value.0, i)];
      }
    }
    SortedHeadIsPrimary(e, policy.Value(), g, s, |e.providers|);
    if ranked == [] {
      return None;
    }
    var sorted := SortBy(ranked, RANK_ORDER);
    return Some(sorted[0].1);
  }

  /** The map from primaries to their symbols that the wanted symbols seen so far make. */
  ghost predicate Grouped(groups: map<nat, set<Symbol>>, e: Eligible, p: Policy, g: Group, seen: set<Symbol>) {
    && (forall i: nat :: i in groups <==> SubGroup(e, p, g, seen, i) != {})
    && (forall i: nat | i in groups :: groups[i] == SubGroup(e, p, g, seen, i))
  }

  lemma GroupMore(groups: map<nat, set<Symbol>>, e: Eligible, p: Policy, g: Group, seen: set<Symbol>, s: Symbol)
    requires Grouped(groups, e, p, g, seen)
    ensures match Primary(e, p, g, s)
      case None => Grouped(groups, e, p, g, seen + {s})
      case Some(i) => Grouped(groups[i := (if i in groups then groups[i] else {}) + {s}], e, p, g, seen + {s})
  {
    forall i: nat
      ensures SubGroup(e, p, g, seen + {s}, i) ==
              SubGroup(e, p, g, seen, i) + if Primary(e, p, g, s) == Some(i) then {s} else {}
    {
    }
    match Primary(e, p, g, s)
    case None =>
    case Some(i) => assert s in SubGroup(e, p, g, seen + {s}, i);
  }

  method GroupByPrimary(e: Eligible, policy: ProviderPolicy, g: Group, requested: set<Symbol>)
    returns (groups: map<nat, set<Symbol>>)
    requires |e.providers| == |e.symbols|
    ensures Grouped(groups, e, policy.Value(), g, requested * e.union)
  {
    groups := map[];
    var rest := requested;
    ghost var seen: set<Symbol> := {};
    while rest != {}
      invariant rest <= requested && seen == (requested - rest) * e.union
      invariant Grouped(groups, e, policy.Value(), g, seen)
      decreases |rest|
    {
      var s :| s in rest;
      rest := rest - {s};
      if s !in e.union {
        continue;
      }
      GroupMore(groups, e, policy.Value(), g, seen, s);
      seen := seen + {s};
      var primary := FindPrimary(e, policy, g, s);
      if primary.None? {
        continue;
      }
      groups := groups[primary.value := (if primary.value in groups then groups[primary.value] else {}) + {s}];
    }
    assert seen == requested * e.union;
  }

  method BuildChain(primary: nat, n: nat) returns (chain: seq<nat>)
    ensures chain == Chain(primary, n)
  {
    chain := [primary];
    for j := 0 to n
      invariant chain == [primary] + Others(primary, j)
    {
      if j != primary {
        chain := chain + [j];
      }
    }
  }

  method AssignInstruments(list: seq<Instrument>, allow: set<Symbol>) returns (mine: seq<Instrument>)
    ensures mine == AssignedTo(list, allow)
  {
    mine := [];
    for i := 0 to |list|
      invariant mine == AssignedTo(list[..i], allow)
    {
      assert list[..i + 1][..i] == list[..i];
      if list[i].Security? && list[i].symbol in allow {
        mine := mine + [list[i]];
      }
    }
    assert list[..|list|] == list;
  }

  method BuildSupervised(e: Eligible, list: seq<Instrument>, primary: nat, group: set<Symbol>, b: Backoff)
      returns (sup: Supervised)
    requires |e.providers| == |e.symbols|
    ensures sup == SupervisedFor(e, list, primary, group, b)
  {
    var chain := BuildChain(primary, |e.providers|);
    var instruments: seq<seq<Instrument>>, allow: seq<set<Symbol>> := [], [];
    for k := 0 to |chain|
      invariant |instruments| == |allow| == k
      invariant forall j | 0 <= j < k ::
                  allow[j] == AllowedIn(e, chain[j], group) &&
                      instruments[j] == AssignedTo(list, AllowedIn(e, chain[j], group))
    {
      var full := if chain[k] < |e.symbols| then e.symbols[chain[k]] else {};
      var filtered := set s | s in full && s in group;
      assert filtered == AllowedIn(e, chain[k], group);
      var mine := AssignInstruments(list, filtered);
      instruments := instruments + [mine];
      allow := allow + [filtered];
    }
    var plan := SupervisorSpec.Plan(instruments, allow, group, seq(|chain|, k => true), b.minMs, b.maxMs,
                                    if b.factor == 0 then 1 else b.factor);
    assert plan == PlanFor(e, list, chain, group, b);
    sup := Supervised(chain, plan);
  }

  method IsDenied(cs: seq<Connector>, policy: ProviderPolicy, g: Group, s: Symbol) returns (denied: bool)
    ensures denied <==> Denied(cs, policy.Value(), g, s)
  {
    if !exists i :: 0 <= i < |cs| && Candidate(cs[i], g.kind) {
      return false;
    }
    for i := 0 to |cs|
      invariant !exists j :: 0 <= j < i && Candidate(cs[j], g.kind) &&
                             ProviderRank(policy.Value(), SymbolContext(s, g), cs[j].key).Some?
    {
      if Candidate(cs[i], g.kind) {
        var r := policy.Rank(SymbolContext(s, g), cs[i].key);
        if r.Some? {
          return false;
        }
      }
    }
    return true;
  }

  method CollectDenied(cs: seq<Connector>, policy: ProviderPolicy, list: seq<Instrument>, g: Group, e: Eligible)
    returns (strict: set<Symbol>)
    ensures strict == StrictlyRejected(cs, policy.Value(), list, g, e)
  {
    strict := {};
    var rejected := Requested(list) - e.union;
    var rest := rejected;
    while rest != {}
      invariant rest <= rejected
      invariant strict == set s | s in rejected - rest && Denied(cs, policy.Value(), g, s)
      decreases |rest|
    {
      var s :| s in rest;
      var denied := IsDenied(cs, policy, g, s);
      if denied {
        strict := strict + {s};
      }
      rest := rest - {s};
    }
  }

  method AnyExplicit(e: Eligible, policy: ProviderPolicy, g: Group, list: seq<Instrument>) returns (any: bool)
    requires SecuritiesOnly(list)
    ensures any <==> HasExplicit(e, policy.Value(), g, list)
  {
    for k := 0 to |list|
      invariant !HasExplicit(e, policy.Value(), g, list[..k])
    {
      assert list[..k + 1] == list[..k] + [list[k]];
      assert list[k] in list;
      for i := 0 to |e.providers|
        invariant forall j | 0 <= j < i :: !ListedFor(e, policy.Value(), g, list[k], j)
      {
        var r := policy.Rank(SymbolContext(list[k].symbol, g), e.providers[i].key);
        if r.Some? && r.value.0.Listed? {
          assert ListedFor(e, policy.Value(), g, list[k], i);
          return true;
        }
      }
    }
    assert list[..|list|] == list;
    return false;
  }

  method SpawnPerPrimary(e: Eligible, policy: ProviderPolicy, g: Group, list: seq<Instrument>, b: Backoff)
    returns (out: seq<Supervised>)
    requires |e.providers| == |e.symbols|
    ensures OnePerPrimary(out, e, policy.Value(), g, list, b)
  {
    ghost var p, wanted := policy.Value(), Requested(list) * e.union;
    var groups := GroupByPrimary(e, policy, g, Requested(list));
    var rest := groups.Keys;
    out := [];
    while rest != {}
      invariant rest <= groups.Keys
      invariant forall k | 0 <= k < |out| :: ForPrimary(out[k], e, p, g, list, wanted, b) && out[k].chain[0] !in rest
      invariant forall i | i in groups.Keys - rest :: HasPrimary(out, i)
      invariant forall k, l | 0 <= k < l < |out| && out[k].chain != [] && out[l].chain != [] ::
                out[k].chain[0] != out[l].chain[0]
      decreases |rest|
    {
      var primary :| primary in rest;
      rest := rest - {primary};
      var sup := BuildSupervised(e, list, primary, groups[primary], b);
      ghost var before := out;
      out := out + [sup];
      forall i | i in groups.Keys - rest ensures HasPrimary(out, i) {
        MorePrimaries(before, sup, i);
      }
    }
  }

  lemma MorePrimaries(out: seq<Supervised>, sup: Supervised, i: nat)
    requires HasPrimary(out, i) || (sup.chain != [] && sup.chain[0] == i)
    ensures HasPrimary(out + [sup], i)
  {
    var more := out + [sup];
    if HasPrimary(out, i) {
      var k :| 0 <= k < |out| && out[k].chain != [] && out[k].chain[0] == i;
      assert more[k] == out[k];
    } else {
      assert more[|out|] == sup;
    }
  }

  method PlanGroup(cs: seq<Connector>, policy: ProviderPolicy, list: seq<Instrument>, g: Group, b: Backoff)
    returns (r: Result<seq<Supervised>, StreamError>)
    ensures IsGroupPlan(cs, policy.Value(), list, g, b, r)
  {
    var eligible := FindEligible(cs, policy, list, g);
    if eligible.Err? {
      return Err(eligible.error);
    }
    var e := eligible.value;
    UnionOfSymbols(cs, policy.Value(), list, g);
    if e.union == {} {
      return Ok([]);
    }
    if !SecuritiesOnly(list) {
      return Err(Unsupported);
    }
    var strict := CollectDenied(cs, policy, list, g, e);
    if strict != {} {
      return Err(StrictSymbolsRejected(strict));
    }
    var any := AnyExplicit(e, policy, g, list);
    if any {
      var out := SpawnPerPrimary(e, policy, g, list, b);
      return Ok(out);
    }
    return Ok([SharedFor(e, list, b)]);
  }

  // ---- The whole call ---------------------------------------------------------------------

  function GroupOf(inst: Instrument): Group {
    Group(inst.kind, ExchangeOf(inst))
  }

  function MembersOf(insts: seq<Instrument>, g: Group): seq<Instrument> {
    if insts == [] then []
    else MembersOf(insts[..|insts| - 1], g) + if GroupOf(insts[|insts| - 1]) == g then [insts[|insts| - 1]] else []
  }

  lemma {:induction false} MembersFacts(insts: seq<Instrument>, g: Group)
    ensures InGroup(MembersOf(insts, g), g)
    ensures forall inst :: inst in MembersOf(insts, g) <==> inst in insts && GroupOf(inst) == g
  {
    if insts != [] {
      MembersFacts(insts[..|insts| - 1], g);
      assert insts == insts[..|insts| - 1] + [insts[|insts| - 1]];
    }
  }

  ghost predicate ByGroup(groups: map<Group, seq<Instrument>>, insts: seq<Instrument>) {
    && (forall g :: g in groups <==> MembersOf(insts, g) != [])
    && (forall g | g in groups :: groups[g] == MembersOf(insts, g))
  }

  method GroupInstruments(insts: seq<Instrument>) returns (groups: map<Group, seq<Instrument>>)
    ensures ByGroup(groups, insts)
  {
    groups := map[];
    for i := 0 to |insts|
      invariant ByGroup(groups, insts[..i])
    {
      assert insts[..i + 1][..i] == insts[..i];
      var g := GroupOf(insts[i]);
      groups := groups[g := (if g in groups then groups[g] else []) + [insts[i]]];
    }
    assert insts[..|insts|] == insts;
  }

  /** Every group of the request has a plan, or the call fails with the error of one of them. */
  ghost predicate IsStreamPlan(cs: seq<Connector>, p: Policy, insts: seq<Instrument>, b: Backoff,
                               r: Result<map<Group, seq<Supervised>>, StreamError>)
  {
    match r
    case Err(e) => (insts == [] && e == NoInstruments) || exists g :: FailsFor(cs, p, insts, b, g, e)
    case Ok(plans) =>
      && insts != []
      && (forall inst | inst in insts :: GroupOf(inst) in plans)
      && (forall g | g in plans :: IsGroupPlan(cs, p, MembersOf(insts, g), g, b, Ok(plans[g])))
  }

  ghost predicate FailsFor(cs: seq<Connector>, p: Policy, insts: seq<Instrument>, b: Backoff, g: Group,
                           e: StreamError) {
    MembersOf(insts, g) != [] && IsGroupPlan(cs, p, MembersOf(insts, g), g, b, Err(e))
  }

  method PlanStreams(cs: seq<Connector>, policy: ProviderPolicy, insts: seq<Instrument>, b: Backoff)
    returns (r: Result<map<Group, seq<Supervised>>, StreamError>)
    ensures IsStreamPlan(cs, policy.Value(), insts, b, r)
  {
    if insts == [] {
      return Err(NoInstruments);
    }
    var groups := GroupInstruments(insts);
    var rest := groups.Keys;
    var plans: map<Group, seq<Supervised>> := map[];
    while rest != {}
      invariant rest <= groups.Keys
      invariant plans.Keys == groups.Keys - rest
      invariant forall g | g in plans :: IsGroupPlan(cs, policy.Value(), MembersOf(insts, g), g, b, Ok(plans[g]))
      decreases |rest|
    {
      var g :| g in rest;
      rest := rest - {g};
      var planned := PlanGroup(cs, policy, groups[g], g, b);
      if planned.Err? {
        assert FailsFor(cs, policy.Value(), insts, b, g, planned.error);
        return Err(planned.error);
      }
      plans := plans[g := planned.value];
    }
    forall inst | inst in insts ensures GroupOf(inst) in plans {
      MembersFacts(insts, GroupOf(inst));
    }
    return Ok(plans);
  }

  // ---- The first answers ------------------------------------------------------------------

  /** The errors among the supervisors' first answers; a supervisor that answers nothing counts as one. */
  function FirstErrors(answers: seq<Option<Result<(), SupervisorSpec.Error>>>): seq<SupervisorSpec.Error> {
    if answers == [] then []
    else
      var last := answers[|answers| - 1];
      FirstErrors(answers[..|answers| - 1]) +
      if last.None? then ["stream supervisor dropped before initialization"]
      else if last.value.Err? then [last.value.error]
      else []
  }

  /**
   * The stream starts iff there is a supervisor and every one reports success; otherwise all errors are reported, in
   * order.
   */
  method AwaitFirstAnswers(answers: seq<Option<Result<(), SupervisorSpec.Error>>>)
      returns (r: Result<(), seq<SupervisorSpec.Error>>)
    ensures r.Ok? <==> answers != [] && forall i | 0 <= i < |answers| :: answers[i].Some? && answers[i].value.Ok?
    ensures r.Err? ==> r.error == FirstErrors(answers)
  {
    var errors: seq<SupervisorSpec.Error>, successes := [], 0;
    for i := 0 to |answers|
      invariant errors == FirstErrors(answers[..i])
      invariant errors == [] <==> forall j | 0 <= j < i :: answers[j].Some? && answers[j].value.Ok?
      invariant errors == [] ==> successes == i
      invariant successes <= i
    {
      assert answers[..i + 1][..i] == answers[..i];
      if answers[i].None? {
        errors := errors + ["stream supervisor dropped before initialization"];
      } else if answers[i].value.Err? {
        errors := errors + [answers[i].value.error];
      } else {
        successes := successes + 1;
      }
    }
    assert answers[..|answers|] == answers;
    if successes == 0 || errors != [] {
      return Err(errors);
    }
    return Ok(());
  }
}

/** What the split into supervisors guarantees, up to the first start requests. */
module StreamPlanProps {
  import opened Wrappers
  import opened Market
  import opened Routing
  import opened Planner
  import opened StreamPlan
  import opened SupervisorProps
  import ControllerSpec
  import ControllerProps

  // ---- Chains -----------------------------------------------------------------------------

  lemma {:induction false} OthersFacts(primary: nat, n: nat)
    ensures var o := Others(primary, n);
      && (forall i :: i in o <==> 0 <= i < n && i != primary)
      && (forall a, b | 0 <= a < b < |o| :: o[a] < o[b])
      && |o| == n - if primary < n then 1 else 0
  {
    if n > 0 {
      OthersFacts(primary, n - 1);
      var o := Others(primary, n - 1);
      assert forall a | 0 <= a < |o| :: o[a] in o;
    }
  }

  /** A chain is a permutation of the eligible providers: the primary, then the others in their order. */
  lemma ChainIsPermutation(primary: nat, n: nat)
    requires primary < n
    ensures var c := Chain(primary, n);
      && |c| == n && c[0] == primary
      && (forall i :: i in c <==> 0 <= i < n)
      && (forall a, b | 0 <= a < b < n :: c[a] != c[b])
      && (forall a, b | 0 < a < b < n :: c[a] < c[b])
  {
    OthersFacts(primary, n);
    var c, o := Chain(primary, n), Others(primary, n);
    forall a | 0 < a < n ensures c[a] == o[a - 1] && c[a] != primary {
      assert o[a - 1] in o;
    }
  }

  // ---- Symbols ----------------------------------------------------------------------------

  lemma RequestedMeans(list: seq<Instrument>, s: Symbol)
    ensures s in Requested(list) <==> exists inst :: inst in list && inst.Security? && inst.symbol == s
  {
  }

  /** In a group, being allowed a symbol and being ranked for it are the same. */
  lemma AllowedIsRanked(p: Policy, list: seq<Instrument>, g: Group, key: Key, s: Symbol)
    requires InGroup(list, g) && s in Requested(list)
    ensures AllowedSymbol(p, list, g, key, s) <==> ProviderRank(p, SymbolContext(s, g), key).Some?
  {
    RequestedMeans(list, s);
    var inst :| inst in list && inst.Security? && inst.symbol == s;
    assert ContextOf(inst, g) == SymbolContext(s, g);
    forall other | other in list && other.Security? && other.symbol == s
      ensures ContextOf(other, g) == SymbolContext(s, g) {
    }
  }

  /** A requested symbol that nobody eligible may stream is denied to all: it never gets lost silently. */
  lemma RejectedIsDenied(cs: seq<Connector>, p: Policy, list: seq<Instrument>, g: Group, s: Symbol)
    requires InGroup(list, g) && EligibleProviders(cs, p, list, g).Ok?
    requires s in Requested(list) && s !in EligibleProviders(cs, p, list, g).value.union
    ensures Denied(cs, p, g, s)
  {
    var e := EligibleProviders(cs, p, list, g).value;
    EligibleExactly(cs, p, list, g);
    forall i | 0 <= i < |cs| && Candidate(cs[i], g.kind) ensures ProviderRank(p, SymbolContext(s, g), cs[i].key).None? {
      AllowedIsRanked(p, list, g, cs[i].key, s);
      if AllowedSymbol(p, list, g, cs[i].key, s) {
        CandidateIsRegistered(cs, p, list, g, i, s);
      }
    }
    SomeProvider(cs, p, list, g);
    assert IsPlanned(cs, p, list, g, e, 0);
    assert Candidate(cs[e.providers[0].idx], g.kind);
  }

  lemma SomeProvider(cs: seq<Connector>, p: Policy, list: seq<Instrument>, g: Group)
    requires EligibleProviders(cs, p, list, g).Ok?
    ensures EligibleProviders(cs, p, list, g).value.providers != []
  {
    var sorted := SortedScores(cs, p, list, g);
    CollectMeans(sorted);
    var all := ScoreAll(cs, p, list, g);
    ScoreAllMembers(cs, p, list, g);
    assert all[0] in all;
    assert all[0] in sorted;
  }

  lemma UnionNotEmpty(cs: seq<Connector>, p: Policy, list: seq<Instrument>, g: Group)
    requires EligibleProviders(cs, p, list, g).Ok?
    ensures EligibleProviders(cs, p, list, g).value.union != {}
  {
    var e := EligibleProviders(cs, p, list, g).value;
    SomeProvider(cs, p, list, g);
    EligibleProvider(cs, p, list, g, 0);
    UnionOfSymbols(cs, p, list, g);
    var s :| s in e.symbols[0];
    assert s in e.union;
  }

  /** A plan that succeeds covers every requested symbol. */
  lemma PlanCoversRequest(cs: seq<Connector>, p: Policy, list: seq<Instrument>, g: Group, b: Backoff,
                          out: seq<Supervised>)
    requires InGroup(list, g) && IsGroupPlan(cs, p, list, g, b, Ok(out))
    ensures EligibleProviders(cs, p, list, g).Ok? && Requested(list) <= EligibleProviders(cs, p, list, g).value.union
  {
    var e := EligibleProviders(cs, p, list, g).value;
    UnionNotEmpty(cs, p, list, g);
    forall s | s in Requested(list) ensures s in e.union {
      assert s !in StrictlyRejected(cs, p, list, g, e);
      if s !in e.union {
        RejectedIsDenied(cs, p, list, g, s);
      }
    }
  }

  lemma WantedHasPrimary(cs: seq<Connector>, p: Policy, list: seq<Instrument>, g: Group, s: Symbol)
    requires InGroup(list, g) && EligibleProviders(cs, p, list, g).Ok?
    requires s in Requested(list) && s in EligibleProviders(cs, p, list, g).value.union
    ensures var e := EligibleProviders(cs, p, list, g).value;
      Primary(e, p, g, s).Some? && IsPrimary(e, p, g, s, |e.providers|, Primary(e, p, g, s).value)
  {
    var e := EligibleProviders(cs, p, list, g).value;
    UnionOfSymbols(cs, p, list, g);
    var i :| 0 <= i < |e.symbols| && s in e.symbols[i];
    EligibleProvider(cs, p, list, g, i);
    AllowedIsRanked(p, list, g, e.providers[i].key, s);
    PrimaryExactly(e, p, g, s, |e.providers|);
    assert SymbolRank(e, p, g, s, i).Some?;
  }

  // ---- With preferences -------------------------------------------------------------------

  /** Exactly one supervisor requires the symbol. */
  ghost predicate RequiredOnce(out: seq<Supervised>, s: Symbol) {
    exists k :: 0 <= k < |out| && s in out[k].plan.required &&
                forall l | 0 <= l < |out| && s in out[l].plan.required :: l == k
  }

  /** The supervisors' required symbols partition the request, and each symbol is with its best provider. */
  lemma RequestIsPartitioned(cs: seq<Connector>, p: Policy, list: seq<Instrument>, g: Group, b: Backoff,
                             out: seq<Supervised>)
    requires InGroup(list, g) && IsGroupPlan(cs, p, list, g, b, Ok(out))
    requires HasExplicit(EligibleProviders(cs, p, list, g).value, p, g, list)
    ensures forall s | s in Requested(list) :: RequiredOnce(out, s)
    ensures forall k | 0 <= k < |out| :: out[k].plan.required <= Requested(list) && out[k].plan.required != {}
  {
    var e := EligibleProviders(cs, p, list, g).value;
    var wanted := Requested(list) * e.union;
    PlanCoversRequest(cs, p, list, g, b, out);
    assert OnePerPrimary(out, e, p, g, list, b);
    forall k | 0 <= k < |out| ensures out[k].plan.required <= Requested(list) && out[k].plan.required != {} {
      assert ForPrimary(out[k], e, p, g, list, wanted, b);
    }
    forall s | s in Requested(list) ensures RequiredOnce(out, s) {
      WantedHasPrimary(cs, p, list, g, s);
      SymbolRequiredOnce(e, p, list, g, b, out, s);
    }
  }

  lemma SymbolRequiredOnce(e: Eligible, p: Policy, list: seq<Instrument>, g: Group, b: Backoff, out: seq<Supervised>,
                           s: Symbol)
    requires OnePerPrimary(out, e, p, g, list, b) && s in Requested(list) * e.union && Primary(e, p, g, s).Some?
    ensures RequiredOnce(out, s)
  {
    var wanted, i := Requested(list) * e.union, Primary(e, p, g, s).value;
    assert s in SubGroup(e, p, g, wanted, i);
    assert HasPrimary(out, i);
    var k :| 0 <= k < |out| && out[k].chain != [] && out[k].chain[0] == i;
    assert ForPrimary(out[k], e, p, g, list, wanted, b);
    forall l | 0 <= l < |out| && s in out[l].plan.required ensures l == k {
      assert ForPrimary(out[l], e, p, g, list, wanted, b);
      assert out[l].chain[0] == i;
    }
  }

  lemma {:induction false} AssignedMembers(list: seq<Instrument>, allow: set<Symbol>)
    ensures forall inst :: inst in AssignedTo(list, allow) <==> inst in list && inst.Security? && inst.symbol in allow
  {
    if list != [] {
      AssignedMembers(list[..|list| - 1], allow);
      assert list == list[..|list| - 1] + [list[|list| - 1]];
    }
  }

  lemma AssignedSymbol(list: seq<Instrument>, allow: set<Symbol>, s: Symbol)
    ensures s in SymbolsOf(AssignedTo(list, allow)) <==> s in Requested(list) && s in allow
  {
    AssignedMembers(list, allow);
    SymbolsOfMembers(AssignedTo(list, allow), s);
    RequestedMeans(list, s);
  }

  /** A provider in the chain is capable of the symbols of the group that it is allowed. */
  lemma CapableInChain(e: Eligible, list: seq<Instrument>, chain: seq<nat>, group: set<Symbol>, b: Backoff, i: nat,
                       s: Symbol)
    requires group <= Requested(list)
    ensures Capable(PlanFor(e, list, chain, group, b), i, s) <==>
            i < |chain| && s in group && s in AllowedIn(e, chain[i], group)
  {
    if i < |chain| {
      AssignedSymbol(list, AllowedIn(e, chain[i], group), s);
    }
  }

  /**
   * Each supervisor's chain is a permutation of the eligible providers. Its head has the smallest (rank, position) for
   * each required symbol among the providers allowed that symbol, may stream all of them, and is their lowest capable.
   */
  lemma PrimaryLeads(cs: seq<Connector>, p: Policy, list: seq<Instrument>, g: Group, b: Backoff, out: seq<Supervised>,
                     k: nat, s: Symbol)
    requires InGroup(list, g) && IsGroupPlan(cs, p, list, g, b, Ok(out)) && k < |out| && s in out[k].plan.required
    requires HasExplicit(EligibleProviders(cs, p, list, g).value, p, g, list)
    ensures var e, sup := EligibleProviders(cs, p, list, g).value, out[k];
      && sup.chain != [] && sup.chain[0] < |e.providers| && sup.chain == Chain(sup.chain[0], |e.providers|)
      && IsPrimary(e, p, g, s, |e.providers|, sup.chain[0])
      && |sup.plan.allow| > 0 && sup.plan.allow[0] == sup.plan.required
      && LowestCapable(sup.plan, 0, s)
  {
    var e, sup := EligibleProviders(cs, p, list, g).value, out[k];
    var wanted := Requested(list) * e.union;
    assert ForPrimary(sup, e, p, g, list, wanted, b);
    var i := sup.chain[0];
    WantedHasPrimary(cs, p, list, g, s);
    HeadAllowed(e, p, g, wanted, i);
    CapableInChain(e, list, sup.chain, sup.plan.required, b, 0, s);
  }

  /** A primary is allowed its whole sub-group. */
  lemma HeadAllowed(e: Eligible, p: Policy, g: Group, wanted: set<Symbol>, i: nat)
    ensures AllowedIn(e, i, SubGroup(e, p, g, wanted, i)) == SubGroup(e, p, g, wanted, i)
  {
    forall s | s in SubGroup(e, p, g, wanted, i) ensures s in AllowedIn(e, i, SubGroup(e, p, g, wanted, i)) {
      PrimaryExactly(e, p, g, s, |e.providers|);
    }
  }

  // ---- Without preferences ----------------------------------------------------------------

  /** Who is ranked but not listed is ranked by everyone's rule: the list that applies, if any, is not strict. */
  lemma UnlistedMeansLenient(p: Policy, ctx: Context, key: Key, other: Key)
    requires ProviderRank(p, ctx, key).Some? && ProviderRank(p, ctx, key).value.0.Unlisted?
    ensures ProviderRank(p, ctx, other).Some?
  {
  }

  /** Without preferences every eligible provider is allowed every requested symbol, and nothing else. */
  lemma AllAllowed(cs: seq<Connector>, p: Policy, list: seq<Instrument>, g: Group, b: Backoff, out: seq<Supervised>,
                   i: nat)
    requires InGroup(list, g) && IsGroupPlan(cs, p, list, g, b, Ok(out))
    requires !HasExplicit(EligibleProviders(cs, p, list, g).value, p, g, list)
    requires i < |EligibleProviders(cs, p, list, g).value.providers|
    ensures var e := EligibleProviders(cs, p, list, g).value; i < |e.symbols| && e.symbols[i] == Requested(list)
  {
    var e := EligibleProviders(cs, p, list, g).value;
    PlanCoversRequest(cs, p, list, g, b, out);
    EligibleProvider(cs, p, list, g, i);
    forall s | s in Requested(list) ensures s in e.symbols[i] {
      AllowedToOne(cs, p, list, g, s, i);
      AllowedIsRanked(p, list, g, e.providers[i].key, s);
    }
    forall s | s in e.symbols[i] ensures s in Requested(list) {
      RequestedMeans(list, s);
    }
  }

  /** A symbol that some eligible provider may stream without being listed for it is admitted for all of them. */
  lemma AllowedToOne(cs: seq<Connector>, p: Policy, list: seq<Instrument>, g: Group, s: Symbol, i: nat)
    requires InGroup(list, g) && EligibleProviders(cs, p, list, g).Ok?
    requires s in Requested(list) && s in EligibleProviders(cs, p, list, g).value.union
    requires !HasExplicit(EligibleProviders(cs, p, list, g).value, p, g, list)
    requires i < |EligibleProviders(cs, p, list, g).value.providers|
    ensures ProviderRank(p, SymbolContext(s, g), EligibleProviders(cs, p, list, g).value.providers[i].key).Some?
  {
    var e := EligibleProviders(cs, p, list, g).value;
    UnionOfSymbols(cs, p, list, g);
    var j: nat :| j < |e.symbols| && s in e.symbols[j];
    EligibleProvider(cs, p, list, g, j);
    AllowedIsRanked(p, list, g, e.providers[j].key, s);
    RequestedMeans(list, s);
    var inst :| inst in list && inst.Security? && inst.symbol == s;
    assert !ListedFor(e, p, g, inst, j);
    UnlistedMeansLenient(p, SymbolContext(s, g), e.providers[j].key, e.providers[i].key);
  }

  /** Without preferences one supervisor requires the whole request, and every provider is capable of all of it. */
  lemma SharedPlan(cs: seq<Connector>, p: Policy, list: seq<Instrument>, g: Group, b: Backoff, out: seq<Supervised>,
                   s: Symbol, i: nat)
    requires InGroup(list, g) && IsGroupPlan(cs, p, list, g, b, Ok(out))
    requires !HasExplicit(EligibleProviders(cs, p, list, g).value, p, g, list) && s in Requested(list)
    ensures |out| == 1 && out[0].plan.required == Requested(list)
    ensures |out[0].chain| == |EligibleProviders(cs, p, list, g).value.providers| &&
            forall j | 0 <= j < |out[0].chain| :: out[0].chain[j] == j
    ensures Capable(out[0].plan, i, s) <==> i < |out[0].chain|
    ensures LowestCapable(out[0].plan, i, s) <==> i == 0
  {
    var e := EligibleProviders(cs, p, list, g).value;
    PlanCoversRequest(cs, p, list, g, b, out);
    UnionOfSymbols(cs, p, list, g);
    SomeProvider(cs, p, list, g);
    assert out == [SharedFor(e, list, b)];
    forall j: nat ensures Capable(out[0].plan, j, s) <==> j < |e.providers| {
      if j < |e.providers| {
        AllAllowed(cs, p, list, g, b, out, j);
        AssignedSymbol(list, e.symbols[j], s);
      }
    }
    assert Capable(out[0].plan, 0, s);
  }

  // ---- Every supervisor -------------------------------------------------------------------

  /** In every planned supervisor the head of the chain is capable of every required symbol. */
  lemma HeadIsCapable(cs: seq<Connector>, p: Policy, list: seq<Instrument>, g: Group, b: Backoff, out: seq<Supervised>,
                      k: nat, s: Symbol)
    requires InGroup(list, g) && IsGroupPlan(cs, p, list, g, b, Ok(out)) && k < |out| && s in out[k].plan.required
    ensures |out[k].chain| > 0 && LowestCapable(out[k].plan, 0, s)
  {
    if HasExplicit(EligibleProviders(cs, p, list, g).value, p, g, list) {
      PrimaryLeads(cs, p, list, g, b, out, k, s);
    } else {
      assert out == [SharedFor(EligibleProviders(cs, p, list, g).value, list, b)];
      SharedPlan(cs, p, list, g, b, out, s, 0);
    }
  }

  /**
   * Before anything has happened, each required symbol has been requested from the head of its chain, and from no
   * other.
   */
  lemma FirstRequests(cs: seq<Connector>, p: Policy, list: seq<Instrument>, g: Group, b: Backoff, out: seq<Supervised>,
                      k: nat, s: Symbol, i: nat)
    requires InGroup(list, g) && IsGroupPlan(cs, p, list, g, b, Ok(out)) && k < |out| && s in out[k].plan.required
    requires i < |out[k].chain|
    ensures var flights := ControllerSpec.Initial(out[k].plan, |out[k].chain|, true).inFlight;
      (exists x :: 0 <= x < |flights| && flights[x].id == i && s in flights[x].symbols) <==> i == 0
  {
    HeadIsCapable(cs, p, list, g, b, out, k, s);
    ControllerProps.InitialRequestsPartition(out[k].plan, |out[k].chain|, true, i, s);
    assert i > 0 ==> !LowestCapable(out[k].plan, i, s);
  }

  // ---- The whole call ---------------------------------------------------------------------

  lemma SharedOnce(cs: seq<Connector>, p: Policy, list: seq<Instrument>, g: Group, b: Backoff, out: seq<Supervised>,
                   s: Symbol)
    requires InGroup(list, g) && IsGroupPlan(cs, p, list, g, b, Ok(out)) && s in Requested(list)
    requires !HasExplicit(EligibleProviders(cs, p, list, g).value, p, g, list)
    ensures RequiredOnce(out, s)
  {
    SharedPlan(cs, p, list, g, b, out, s, 0);
    assert s in out[0].plan.required;
  }

  /**
   * If the call succeeds, every instrument is a security whose symbol is required by exactly one supervisor of its
   * group.
   */
  lemma EveryInstrumentServed(cs: seq<Connector>, p: Policy, insts: seq<Instrument>, b: Backoff,
                              plans: map<Group, seq<Supervised>>, inst: Instrument)
    requires IsStreamPlan(cs, p, insts, b, Ok(plans)) && inst in insts
    ensures GroupOf(inst) in plans && inst.Security? && RequiredOnce(plans[GroupOf(inst)], inst.symbol)
  {
    var g := GroupOf(inst);
    var list, out := MembersOf(insts, g), plans[g];
    MembersFacts(insts, g);
    var eligible := EligibleProviders(cs, p, list, g);
    assert eligible.Ok?;
    UnionNotEmpty(cs, p, list, g);
    assert SecuritiesOnly(list);
    if HasExplicit(eligible.value, p, g, list) {
      RequestIsPartitioned(cs, p, list, g, b, out);
    } else {
      SharedOnce(cs, p, list, g, b, out, inst.symbol);
    }
  }
}

/** When the startup of a planned supervisor fails: the state machine run on the plans that the router makes. */
module PlannedStartup {
  import opened Wrappers
  import opened Market
  import opened Routing
  import opened Planner
  import opened StreamPlan
  import opened StreamPlanProps
  import opened SupervisorSpec
  import opened SupervisorProps
  import opened ControllerSpec
  import opened ControllerProps
  import opened StartupProps

  // ---- The head fails ---------------------------------------------------------------------

  /** The first provider is capable of everything required, as it is in every planned supervisor. */
  ghost predicate Headed(plan: Plan) {
    forall s | s in plan.required :: LowestCapable(plan, 0, s)
  }

  /** The lowest-index capable provider behind the head. */
  ghost predicate LowestBehindHead(plan: Plan, id: nat, s: Symbol) {
    id > 0 && Capable(plan, id, s) && forall j | 0 < j < id :: !Capable(plan, j, s)
  }

  /** The head is out; the others before `i` hold what they are the lowest for behind it, and the rest is idle. */
  ghost predicate Rear(plan: Plan, ps: seq<ProviderState>, i: nat) {
    && |ps| > 0 && ps[0].InCooldown?
    && (forall j, s | 0 <= j < |ps| :: Holds(ps[j], s) <==> j < i && LowestBehindHead(plan, j, s))
    && (forall j | 0 < j < |ps| :: IsIdle(ps[j]) || ps[j].Connecting?)
    && (forall j | 0 < j < |ps| && i <= j :: IsIdle(ps[j]))
  }

  lemma RearAdvances(plan: Plan, ps: seq<ProviderState>, i: nat)
    requires 0 < i < |ps| && Rear(plan, ps, i)
    ensures Rear(plan, Visit(plan, ps, i).0, i + 1)
  {
    var p1 := Visit(plan, ps, i).0;
    if CanStream(plan, i) {
      forall s ensures Holds(p1[i], s) <==> LowestBehindHead(plan, i, s) {
        NeededExact(plan, ps, i, s);
        if Capable(plan, i, s) && !LowestBehindHead(plan, i, s) {
          var j := LowestBehind(plan, i, s);
          assert Holds(ps[j], s);
        }
      }
    }
  }

  lemma {:induction false} LowestBehind(plan: Plan, i: nat, s: Symbol) returns (j: nat)
    requires i > 0 && Capable(plan, i, s)
    ensures j <= i && LowestBehindHead(plan, j, s)
    decreases i
  {
    j := i;
    if k :| 0 < k < i && Capable(plan, k, s) {
      j := LowestBehind(plan, k, s);
    }
  }

  lemma {:induction false} RearScan(plan: Plan, ps: seq<ProviderState>, i: nat)
    requires 0 < i < |ps| && Rear(plan, ps, i)
    ensures Rear(plan, Scan(plan, ps, i, |ps| - i + 1).0, |ps|)
    decreases |ps| - i
  {
    var p1 := Visit(plan, ps, i).0;
    RearAdvances(plan, ps, i);
    if i + 1 < |ps| {
      RearScan(plan, p1, i + 1);
    } else {
      assert Next(i, |ps|) == 0 && Visit(plan, p1, 0).0 == p1;
      assert Scan(plan, p1, 0, 1).0 == p1;
    }
  }

  lemma InitialFront(plan: Plan, n: nat)
    requires n > 0
    ensures |Initial(plan, n, true).sup.providers| == n && Front(plan, Initial(plan, n, true).sup.providers, n)
  {
    var idle := Unstarted(plan, n, true).sup.providers;
    InitialProviders(plan, n, true);
    if HasIdleProviderWithWork(plan, idle) {
      FrontScan(plan, idle, 0);
    } else {
      forall j, s | 0 <= j < n ensures !LowestCapable(plan, j, s) {
        InitialHoldings(plan, n, true, j, s);
      }
    }
  }

  /** At first only the head has been asked. */
  lemma OnlyHeadAsked(plan: Plan, n: nat)
    requires n > 0 && Headed(plan)
    ensures var sys := Initial(plan, n, true);
      && |sys.sup.providers| == n && (forall j | 0 < j < n :: IsIdle(sys.sup.providers[j]))
      && (forall x | 0 <= x < |sys.inFlight| :: sys.inFlight[x].id == 0)
  {
    var sys := Initial(plan, n, true);
    var ps := sys.sup.providers;
    InitialInv(plan, n, true);
    InitialShape(plan, n, true);
    InitialFront(plan, n);
    forall j, s | 0 < j < n ensures !Holds(ps[j], s) {
      assert LowestCapable(plan, 0, s) ==> Capable(plan, 0, s);
    }
    forall j | 0 < j < n ensures IsIdle(ps[j]) {
      assert ps[j].Connecting? ==> Holds(ps[j], ps[j].symbols[0]);
    }
  }

  /** The head's failure makes the scan go on behind it. */
  lemma ScanBehindHead(s: State, error: Error)
    requires |s.providers| > 1 && s.phase.Startup? && s.phase.initialTx && StartupShape(s, true)
    requires forall j | 0 < j < |s.providers| :: IsIdle(s.providers[j])
    ensures Rear(s.plan, Handle(s, ProviderStartFailed(0, error)).0.providers, |s.providers|)
    ensures Handle(s, ProviderStartFailed(0, error)).0.phase.Startup?
  {
    var n, s1 := |s.providers|, Transition(s, ProviderStartFailed(0, error)).0;
    OtherFailureTransition(s, 0, error);
    HandleNotifications(s, ProviderStartFailed(0, error));
    Remainder(1, n);
    Remainder(0, n);
    if ShouldAttemptStarts(s1) {
      RearScan(s.plan, s1.providers, 1);
      assert Visits(1, 0, n) == n;
    } else {
      forall j, sym | 0 < j < n ensures !LowestBehindHead(s.plan, j, sym) {
        if Capable(s.plan, j, sym) {
          NeedsSomething(s.plan, s1.providers, j);
        }
      }
    }
  }

  /**
   * The head's failure does not end the startup. Its symbols are then asked for from the others: each from the
   * lowest-index one that is capable of it, and from no other.
   */
  lemma HeadFails(plan: Plan, n: nat, x: nat, error: Error, j: nat, s: Symbol)
    requires n > 1 && Headed(plan) && x < |Initial(plan, n, true).inFlight|
    ensures Enabled(Initial(plan, n, true), StartFailed(x, error)) && IdsInRange(Initial(plan, n, true))
    ensures var sys := Apply(Initial(plan, n, true), StartFailed(x, error));
      && !sys.returned && IdsInRange(sys) && sys.sup.phase.Startup?
      && ((exists y :: IsAsked(sys, y, j, s)) <==> j < n && LowestBehindHead(plan, j, s))
  {
    HeadFailure(plan, n, x, error);
    AskedIsConnecting(Apply(Initial(plan, n, true), StartFailed(x, error)), j, s);
  }

  lemma HeadFailure(plan: Plan, n: nat, x: nat, error: Error)
    requires n > 1 && Headed(plan) && x < |Initial(plan, n, true).inFlight|
    ensures var before, l := Initial(plan, n, true), StartFailed(x, error);
      && Enabled(before, l) && IdsInRange(before)
      && var sys := Apply(before, l);
         !sys.returned && Inv(sys) && sys.sup.phase.Startup? && |sys.sup.providers| == n &&
             Rear(plan, sys.sup.providers, n)
  {
    var before, l := Initial(plan, n, true), StartFailed(x, error);
    InitialInv(plan, n, true);
    InitialPhase(plan, n);
    InitialShape(plan, n, true);
    OnlyHeadAsked(plan, n);
    HeadFailureStep(before, x, error);
  }

  lemma HeadFailureStep(before: System, x: nat, error: Error)
    requires Inv(before) && !before.returned && x < |before.inFlight| && before.inFlight[x].id == 0
    requires |before.sup.providers| > 1 && forall j | 0 < j < |before.sup.providers| :: IsIdle(before.sup.providers[j])
    requires before.sup.phase.Startup? && before.sup.phase.initialTx && StartupShape(before.sup, true)
    ensures Enabled(before, StartFailed(x, error)) && IdsInRange(before)
    ensures var sys := Apply(before, StartFailed(x, error));
      && !sys.returned && Inv(sys) && sys.sup.phase.Startup?
      && |sys.sup.providers| == |before.sup.providers| &&
          Rear(before.sup.plan, sys.sup.providers, |before.sup.providers|)
  {
    OtherFailureTransition(before.sup, 0, error);
    StartFailedKeepsInv(before, x, error);
    ApplyKeepsPlan(before, StartFailed(x, error));
    ScanBehindHead(before.sup, error);
  }

  ghost predicate IsAsked(sys: System, y: nat, id: nat, s: Symbol) {
    y < |sys.inFlight| && sys.inFlight[y].id == id && s in sys.inFlight[y].symbols
  }

  lemma AskedIsConnecting(sys: System, j: nat, s: Symbol)
    requires Inv(sys)
    ensures (exists y :: IsAsked(sys, y, j, s)) <==>
            j < |sys.sup.providers| && sys.sup.providers[j].Connecting? && Holds(sys.sup.providers[j], s)
  {
    var ps := sys.sup.providers;
    if j < |ps| && ps[j].Connecting? && Holds(ps[j], s) {
      var y :| 0 <= y < |sys.inFlight| && sys.inFlight[y].id == j;
      assert IsAsked(sys, y, j, s);
    }
  }

  // ---- Planned supervisors ----------------------------------------------------------------

  /** The policy ranks eligible provider `i` for one of the symbols. */
  ghost predicate RankedForSome(e: Eligible, p: Policy, g: Group, i: nat, symbols: set<Symbol>) {
    i < |e.providers| && exists s :: s in symbols && ProviderRank(p, SymbolContext(s, g), e.providers[i].key).Some?
  }

  /** What the last provider of a chain is capable of: the required symbols it is allowed. */
  ghost predicate LastServes(e: Eligible, sup: Supervised) {
    var last := |sup.chain| - 1;
    && last >= 0 && |e.symbols| == |e.providers| && sup.chain[last] < |e.providers|
    && forall s :: Capable(sup.plan, last, s) <==> s in sup.plan.required && s in e.symbols[sup.chain[last]]
  }

  lemma PlannedLast(cs: seq<Connector>, p: Policy, list: seq<Instrument>, g: Group, b: Backoff, out: seq<Supervised>,
                    k: nat)
    requires InGroup(list, g) && IsGroupPlan(cs, p, list, g, b, Ok(out)) && k < |out|
    ensures LastServes(EligibleProviders(cs, p, list, g).value, out[k])
    ensures out[k].plan.required <= Requested(list) && out[k].plan.required != {}
  {
    if HasExplicit(EligibleProviders(cs, p, list, g).value, p, g, list) {
      RequestIsPartitioned(cs, p, list, g, b, out);
      PrimaryLast(cs, p, list, g, b, out, k);
    } else {
      SharedLast(cs, p, list, g, b, out);
    }
  }

  lemma PrimaryLast(cs: seq<Connector>, p: Policy, list: seq<Instrument>, g: Group, b: Backoff, out: seq<Supervised>,
                    k: nat)
    requires InGroup(list, g) && IsGroupPlan(cs, p, list, g, b, Ok(out)) && k < |out|
    requires HasExplicit(EligibleProviders(cs, p, list, g).value, p, g, list)
    requires out[k].plan.required <= Requested(list) && out[k].plan.required != {}
    ensures LastServes(EligibleProviders(cs, p, list, g).value, out[k])
  {
    var e, sup := EligibleProviders(cs, p, list, g).value, out[k];
    UnionOfSymbols(cs, p, list, g);
    UnionNotEmpty(cs, p, list, g);
    var s :| s in sup.plan.required;
    PrimaryLeads(cs, p, list, g, b, out, k, s);
    ChainIsPermutation(sup.chain[0], |e.providers|);
    assert sup.chain[|sup.chain| - 1] in sup.chain;
    assert ForPrimary(sup, e, p, g, list, Requested(list) * e.union, b);
    LastOf(e, list, sup.chain, sup.plan.required, b);
  }

  lemma LastOf(e: Eligible, list: seq<Instrument>, chain: seq<nat>, group: set<Symbol>, b: Backoff)
    requires chain != [] && group <= Requested(list) && chain[|chain| - 1] < |e.symbols|
    ensures forall s :: Capable(PlanFor(e, list, chain, group, b), |chain| - 1, s) <==>
            s in group && s in e.symbols[chain[|chain| - 1]]
  {
    var last := |chain| - 1;
    forall s ensures Capable(PlanFor(e, list, chain, group, b), last, s) <==>
        s in group && s in e.symbols[chain[last]] {
      CapableInChain(e, list, chain, group, b, last, s);
    }
  }

  lemma SharedLast(cs: seq<Connector>, p: Policy, list: seq<Instrument>, g: Group, b: Backoff, out: seq<Supervised>)
    requires InGroup(list, g) && IsGroupPlan(cs, p, list, g, b, Ok(out))
    requires !HasExplicit(EligibleProviders(cs, p, list, g).value, p, g, list)
    ensures |out| == 1 && out[0].plan.required == Requested(list) && out[0].plan.required != {}
    ensures LastServes(EligibleProviders(cs, p, list, g).value, out[0])
  {
    var e := EligibleProviders(cs, p, list, g).value;
    UnionOfSymbols(cs, p, list, g);
    SomeProvider(cs, p, list, g);
    UnionNotEmpty(cs, p, list, g);
    PlanCoversRequest(cs, p, list, g, b, out);
    assert out == [SharedFor(e, list, b)];
    var last := |e.providers| - 1;
    EligibleProvider(cs, p, list, g, last);
    AllAllowed(cs, p, list, g, b, out, last);
    forall s ensures Capable(out[0].plan, last, s) <==> s in Requested(list) && s in e.symbols[last] {
      AssignedSymbol(list, e.symbols[last], s);
    }
  }

  /**
   * The startup of a planned supervisor can fail iff the policy ranks the last provider of its chain for a required
   * symbol. Without preferences it always can.
   */
  lemma PlannedCanFail(cs: seq<Connector>, p: Policy, list: seq<Instrument>, g: Group, b: Backoff,
                       out: seq<Supervised>, k: nat)
    requires InGroup(list, g) && IsGroupPlan(cs, p, list, g, b, Ok(out)) && k < |out|
    ensures var e, sup := EligibleProviders(cs, p, list, g).value, out[k];
      && sup.chain != []
      && (CanFail(sup.plan, |sup.chain|) <==> RankedForSome(e, p, g, sup.chain[|sup.chain| - 1], sup.plan.required))
      && (!HasExplicit(e, p, g, list) ==> CanFail(sup.plan, |sup.chain|))
  {
    var e, sup := EligibleProviders(cs, p, list, g).value, out[k];
    PlannedLast(cs, p, list, g, b, out, k);
    var last := sup.chain[|sup.chain| - 1];
    forall s | s in sup.plan.required
      ensures s in e.symbols[last] <==> ProviderRank(p, SymbolContext(s, g), e.providers[last].key).Some?
    {
      ServedIsRanked(cs, p, list, g, last, s);
    }
    ServesIffRanked(e, p, g, sup);
    if !HasExplicit(e, p, g, list) {
      AllAllowed(cs, p, list, g, b, out, last);
      AllServed(e, sup);
    }
  }

  lemma ServedIsRanked(cs: seq<Connector>, p: Policy, list: seq<Instrument>, g: Group, i: nat, s: Symbol)
    requires InGroup(list, g) && EligibleProviders(cs, p, list, g).Ok? && s in Requested(list)
    requires var e := EligibleProviders(cs, p, list, g).value; i < |e.providers| == |e.symbols|
    ensures var e := EligibleProviders(cs, p, list, g).value;
      s in e.symbols[i] <==> ProviderRank(p, SymbolContext(s, g), e.providers[i].key).Some?
  {
    EligibleProvider(cs, p, list, g, i);
    AllowedIsRanked(p, list, g, EligibleProviders(cs, p, list, g).value.providers[i].key, s);
  }

  lemma ServesIffRanked(e: Eligible, p: Policy, g: Group, sup: Supervised)
    requires LastServes(e, sup)
    requires var last := sup.chain[|sup.chain| - 1];
      forall s | s in sup.plan.required ::
        s in e.symbols[last] <==> ProviderRank(p, SymbolContext(s, g), e.providers[last].key).Some?
    ensures CanFail(sup.plan, |sup.chain|) <==> RankedForSome(e, p, g, sup.chain[|sup.chain| - 1], sup.plan.required)
  {
    CanFailIff(sup.plan, |sup.chain|);
  }

  lemma AllServed(e: Eligible, sup: Supervised)
    requires LastServes(e, sup) && sup.plan.required <= e.symbols[sup.chain[|sup.chain| - 1]] && sup.plan.required != {}
    ensures CanFail(sup.plan, |sup.chain|)
  {
    var s :| s in sup.plan.required;
    assert Capable(sup.plan, |sup.chain| - 1, s);
    CanFailIff(sup.plan, |sup.chain|);
  }
}

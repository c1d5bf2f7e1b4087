/** What holds in every state of every run of the supervisor and its driver. */
module ControllerProps {
  import opened Wrappers
  import opened Market
  import opened SupervisorSpec
  import opened SupervisorProps
  import opened ControllerSpec

  // ---- The invariant ----------------------------------------------------------------------

  /** Requests in flight and Connecting providers correspond one to one, with equal symbols. */
  ghost predicate FlightsMatch(ps: seq<ProviderState>, flights: seq<Request>) {
    && (forall x | 0 <= x < |flights| :: flights[x].id < |ps| && ps[flights[x].id] == Connecting(flights[x].symbols))
    && (forall x, y | 0 <= x < y < |flights| :: flights[x].id != flights[y].id)
    && (forall i | 0 <= i < |ps| && ps[i].Connecting? :: exists x :: 0 <= x < |flights| && flights[x].id == i)
  }

  /** Unfinished sessions and Active providers correspond one to one, with equal symbols. */
  ghost predicate SessionsMatch(ps: seq<ProviderState>, sessions: map<nat, Session>, downstreamOpen: bool) {
    && (forall i | i in sessions ::
          && i < |ps|
          && (if sessions[i].status == Finished then !ps[i].Active? else ps[i] == Active(sessions[i].symbols))
          && (sessions[i].status == EndedSilently ==> !downstreamOpen))
    && (forall i | 0 <= i < |ps| && ps[i].Active? :: i in sessions)
  }

  /** Providers hold only symbols they are capable of, and all symbols they are the lowest capable provider of. */
  ghost predicate PlannedWell(plan: Plan, ps: seq<ProviderState>) {
    && (forall i, s | 0 <= i < |ps| && Holds(ps[i], s) :: Capable(plan, i, s))
    && (forall i, s | 0 <= i < |ps| && (ps[i].Connecting? || ps[i].Active?) && LowestCapable(plan, i, s) ::
        Holds(ps[i], s))
  }

  /** Of two providers holding a symbol, the lower-priority one was asked first. */
  ghost predicate RequestsOrdered(ps: seq<ProviderState>, lastRequest: seq<nat>, clock: nat) {
    && |lastRequest| == |ps|
    && (forall i | 0 <= i < |ps| :: lastRequest[i] < clock)
    && (forall j, k, s | 0 <= j < k < |ps| && Holds(ps[j], s) && Holds(ps[k], s) :: lastRequest[k] < lastRequest[j])
  }

  /** Of two Active providers sharing a symbol, the lower-priority one is told to stop or became Active last. */
  ghost predicate OverlapsResolved(ps: seq<ProviderState>, sessions: map<nat, Session>, lastActivation: seq<nat>,
                                   clock: nat) {
    && |lastActivation| == |ps|
    && (forall i | 0 <= i < |ps| :: lastActivation[i] < clock)
    && (forall j, k, s | 0 <= j < k < |ps| && ps[j].Active? && ps[k].Active? && s in ps[j].symbols &&
        s in ps[k].symbols ::
          k in sessions && (sessions[k].stopTold || lastActivation[j] < lastActivation[k]))
  }

  ghost predicate Protocol(sys: System) {
    && FlightsMatch(sys.sup.providers, sys.inFlight)
    && SessionsMatch(sys.sup.providers, sys.sessions, sys.downstreamOpen)
    && PlannedWell(sys.sup.plan, sys.sup.providers)
    && RequestsOrdered(sys.sup.providers, sys.lastRequest, sys.clock)
    && OverlapsResolved(sys.sup.providers, sys.sessions, sys.lastActivation, sys.clock)
  }

  ghost predicate Cursors(s: State) {
    |s.providers| > 0 && s.startIndex < |s.providers| && s.scanCursor < |s.providers|
  }

  /** The invariant of a driver that has not returned. */
  ghost predicate Inv(sys: System) {
    && Protocol(sys)
    && Cursors(sys.sup)
    && (sys.sup.phase.Startup? || sys.sup.phase.Running?)
    && sys.timer == Some(sys.sup.backoffMs)
  }

  // ---- Building blocks --------------------------------------------------------------------

  function WithProviders(sys: System, ps: seq<ProviderState>): System {
    sys.(sup := sys.sup.(providers := ps))
  }

  /** One visit of the scan together with the request it issues. */
  lemma VisitKeepsProtocol(sys: System, i: nat)
    requires Protocol(sys) && i < |sys.sup.providers|
    ensures var (p1, a1) := Visit(sys.sup.plan, sys.sup.providers, i);
      a1 != [] ==> |a1| == 1 && a1[0].RequestStart? && Protocol(Perform(WithProviders(sys, p1), a1[0]))
  {
    var ps, plan := sys.sup.providers, sys.sup.plan;
    var (p1, a1) := Visit(plan, ps, i);
    if a1 != [] {
      var after := Perform(WithProviders(sys, p1), a1[0]);
      forall s ensures Holds(p1[i], s) <==> Capable(plan, i, s) && !HasSymbolBefore(ps, i, s) {
        NeededExact(plan, ps, i, s);
      }
      VisitKeepsFlights(sys, i);
      VisitKeepsPlan(plan, ps, p1, i);
      VisitKeepsOrder(ps, p1, i, sys.lastRequest, sys.clock);
    }
  }

  lemma FlightAdded(ps: seq<ProviderState>, flights: seq<Request>, r: Request)
    requires FlightsMatch(ps, flights) && r.id < |ps| && !ps[r.id].Connecting?
    ensures FlightsMatch(ps[r.id := Connecting(r.symbols)], flights + [r])
  {
    var p1, more := ps[r.id := Connecting(r.symbols)], flights + [r];
    forall j | 0 <= j < |p1| && p1[j].Connecting?
      ensures exists x :: 0 <= x < |more| && more[x].id == j
    {
      if j == r.id {
        assert more[|flights|].id == j;
      } else {
        var x :| 0 <= x < |flights| && flights[x].id == j;
        assert more[x].id == j;
      }
    }
  }

  lemma VisitKeepsFlights(sys: System, i: nat)
    requires FlightsMatch(sys.sup.providers, sys.inFlight) && i < |sys.sup.providers|
    ensures var (p1, a1) := Visit(sys.sup.plan, sys.sup.providers, i);
      a1 != [] ==> FlightsMatch(p1, sys.inFlight + [Request(i, SymbolsOf(a1[0].instruments))])
  {
    var (p1, a1) := Visit(sys.sup.plan, sys.sup.providers, i);
    if a1 != [] {
      FlightAdded(sys.sup.providers, sys.inFlight, Request(i, SymbolsOf(a1[0].instruments)));
    }
  }

  lemma VisitKeepsPlan(plan: Plan, ps: seq<ProviderState>, p1: seq<ProviderState>, i: nat)
    requires PlannedWell(plan, ps) && i < |ps| == |p1| && p1 == ps[i := p1[i]] && p1[i].Connecting?
    requires forall s :: Holds(p1[i], s) <==> Capable(plan, i, s) && !HasSymbolBefore(ps, i, s)
    ensures PlannedWell(plan, p1)
  {
  }

  lemma VisitKeepsOrder(ps: seq<ProviderState>, p1: seq<ProviderState>, i: nat, lastRequest: seq<nat>, clock: nat)
    requires RequestsOrdered(ps, lastRequest, clock) && i < |ps| == |p1| && p1 == ps[i := p1[i]]
    requires forall s :: Holds(p1[i], s) ==> !HasSymbolBefore(ps, i, s)
    ensures RequestsOrdered(p1, SetAt(lastRequest, i, clock), clock + 1)
  {
    var after := SetAt(lastRequest, i, clock);
    forall j, k, s | 0 <= j < k < |p1| && Holds(p1[j], s) && Holds(p1[k], s)
      ensures after[k] < after[j]
    {
      if k == i {
        assert Holds(ps[j], s);
        assert HasSymbolBefore(ps, i, s);
        assert false;
      }
    }
  }

  /** The driver's state after one visit of the scan, and after `k` of them, with the requests they issue. */
  function AfterVisit(sys: System, i: nat): System
    requires i < |sys.sup.providers|
  {
    var (p1, a1) := Visit(sys.sup.plan, sys.sup.providers, i);
    RunActions(WithProviders(sys, p1), a1)
  }

  function AfterScan(sys: System, i: nat, k: nat): System
    requires i < |sys.sup.providers|
  {
    var (ps, reqs) := Scan(sys.sup.plan, sys.sup.providers, i, k);
    RunActions(WithProviders(sys, ps), reqs)
  }

  /** Scanning changes the supervisor's providers and the driver's requests, and nothing else. */
  predicate OnlyRequests(before: System, after: System, ps: seq<ProviderState>) {
    && after.sup == before.sup.(providers := ps)
    && after == before.(sup := after.sup, inFlight := after.inFlight, clock := after.clock,
                        lastRequest := after.lastRequest)
  }

  lemma VisitRuns(sys: System, i: nat)
    requires Protocol(sys) && !sys.returned && i < |sys.sup.providers|
    ensures Protocol(AfterVisit(sys, i))
    ensures OnlyRequests(sys, AfterVisit(sys, i), Visit(sys.sup.plan, sys.sup.providers, i).0)
  {
    var (p1, a1) := Visit(sys.sup.plan, sys.sup.providers, i);
    VisitKeepsProtocol(sys, i);
    if a1 == [] {
      assert WithProviders(sys, p1) == sys;
    } else {
      assert a1 == [a1[0]];
      RunOne(WithProviders(sys, p1), a1[0]);
    }
  }

  lemma ScanUnfolds(sys: System, i: nat, k: nat)
    requires !sys.returned && i < |sys.sup.providers| && k > 0
    ensures |AfterVisit(sys, i).sup.providers| == |sys.sup.providers|
    ensures AfterScan(sys, i, k) == AfterScan(AfterVisit(sys, i), Next(i, |sys.sup.providers|), k - 1)
  {
    var ps := sys.sup.providers;
    var (p1, a1) := Visit(sys.sup.plan, ps, i);
    var (p2, a2) := Scan(sys.sup.plan, p1, Next(i, |ps|), k - 1);
    if a1 == [] {
      assert a1 + a2 == a2 && WithProviders(sys, p1) == sys;
    } else {
      assert a1 == [a1[0]] && (a1 + a2)[1..] == a2;
      RunOne(WithProviders(sys, p1), a1[0]);
      assert WithProviders(AfterVisit(sys, i), p2) == Perform(WithProviders(sys, p2), a1[0]);
    }
  }

  /** A scan and its requests keep the protocol invariant and touch nothing else. */
  lemma {:induction false} ScanKeepsProtocol(sys: System, i: nat, k: nat)
    requires Protocol(sys) && !sys.returned && i < |sys.sup.providers|
    ensures Protocol(AfterScan(sys, i, k))
    ensures OnlyRequests(sys, AfterScan(sys, i, k), Scan(sys.sup.plan, sys.sup.providers, i, k).0)
    decreases k
  {
    if k > 0 {
      VisitRuns(sys, i);
      ScanUnfolds(sys, i, k);
      ScanKeepsProtocol(AfterVisit(sys, i), Next(i, |sys.sup.providers|), k - 1);
    } else {
      assert WithProviders(sys, sys.sup.providers) == sys;
    }
  }

  lemma WithoutAt(flights: seq<Request>, x: nat, y: nat)
    requires x < |flights| && y < |flights| - 1
    ensures |Without(flights, x)| == |flights| - 1 && Without(flights, x)[y] == flights[if y < x then y else y + 1]
  {
  }

  lemma WithoutKeepsFlights(ps: seq<ProviderState>, p1: seq<ProviderState>, flights: seq<Request>, x: nat)
    requires FlightsMatch(ps, flights) && x < |flights|
    requires |p1| == |ps| && p1 == ps[flights[x].id := p1[flights[x].id]] && !p1[flights[x].id].Connecting?
    ensures FlightsMatch(p1, Without(flights, x))
  {
    var rest := Without(flights, x);
    forall y | 0 <= y < |rest| ensures rest[y] == flights[if y < x then y else y + 1] {
      WithoutAt(flights, x, y);
    }
    forall i | 0 <= i < |p1| && p1[i].Connecting?
      ensures exists y :: 0 <= y < |rest| && rest[y].id == i
    {
      var y :| 0 <= y < |flights| && flights[y].id == i;
      assert rest[if y < x then y else y - 1].id == i;
    }
  }

  /** Losing a holder, or a connecting provider giving up, keeps all but the two matchings. */
  lemma ReleaseKeepsRest(sys: System, after: System, id: nat, released: ProviderState)
    requires Protocol(sys) && id < |sys.sup.providers| && !released.Connecting? && !released.Active?
    requires after.sup.plan == sys.sup.plan && after.sup.providers == sys.sup.providers[id := released]
    requires after.lastRequest == sys.lastRequest && after.lastActivation == sys.lastActivation &&
             after.clock == sys.clock
    requires FlightsMatch(after.sup.providers, after.inFlight)
    requires SessionsMatch(after.sup.providers, after.sessions, after.downstreamOpen)
    requires forall i | i in sys.sessions ::
             i in after.sessions && after.sessions[i].stopTold == sys.sessions[i].stopTold
    ensures Protocol(after)
  {
    var p0, p1 := sys.sup.providers, after.sup.providers;
    assert forall i | 0 <= i < |p1| && i != id :: p1[i] == p0[i];
  }

  /**
   * The driver's state once it has spawned the session of request `x` and the supervisor has recorded and preempted.
   */
  function Activated(sys: System, x: nat): System
    requires x < |sys.inFlight| && sys.inFlight[x].id < |sys.sup.providers|
  {
    var r := sys.inFlight[x];
    var ps := sys.sup.providers[r.id := Active(r.symbols)];
    var spawned := Spawned(sys, x);
    var lower := LowerPriorityOverlaps(ps, r.id, r.symbols);
    WithProviders(spawned, ps).(sessions := ToldToStop(spawned.sessions, set i | i in lower))
  }

  lemma ActivateKeepsProtocol(sys: System, x: nat)
    requires Protocol(sys) && x < |sys.inFlight|
    ensures Protocol(Activated(sys, x))
  {
    var r := sys.inFlight[x];
    var p0 := sys.sup.providers;
    var after := Activated(sys, x);
    var p1 := after.sup.providers;
    WithoutKeepsFlights(p0, p1, sys.inFlight, x);
    ActivateKeepsOverlaps(sys, x);
    assert forall i | 0 <= i < |p1| && i != r.id :: p1[i] == p0[i];
    assert forall i, s | 0 <= i < |p1| :: Holds(p1[i], s) <==> Holds(p0[i], s);
  }

  /** At an activation every lower-priority overlapping session is told to stop. */
  lemma ActivateKeepsOverlaps(sys: System, x: nat)
    requires Protocol(sys) && x < |sys.inFlight|
    ensures var after := Activated(sys, x);
      OverlapsResolved(after.sup.providers, after.sessions, after.lastActivation, after.clock)
  {
    var r := sys.inFlight[x];
    var p0 := sys.sup.providers;
    var after := Activated(sys, x);
    var p1 := after.sup.providers;
    LowerPriorityOverlapsExact(p1, r.id, r.symbols);
    var lower := LowerPriorityOverlaps(p1, r.id, r.symbols);
    forall j, k, s | 0 <= j < k < |p1| && p1[j].Active? && p1[k].Active? && s in p1[j].symbols && s in p1[k].symbols
      ensures k in after.sessions && (after.sessions[k].stopTold || after.lastActivation[j] < after.lastActivation[k])
    {
      if j == r.id {
        assert Overlap(p1[k].symbols, r.symbols);
        assert k in lower;
        assert p0[k].Active?;
      } else if k != r.id {
        assert p0[j] == p1[j] && p0[k] == p1[k];
      }
    }
  }

  lemma ClearingKeepsProtocol(sys: System)
    requires Protocol(sys)
    ensures Protocol(WithProviders(sys, ClearCooldowns(sys.sup.providers)))
  {
    var p0 := sys.sup.providers;
    var p1 := ClearCooldowns(p0);
    assert forall i | 0 <= i < |p0| :: p1[i] == p0[i] || (p0[i].InCooldown? && p1[i].IdleFromCooldown?);
    assert forall i, s | 0 <= i < |p1| :: Holds(p1[i], s) <==> Holds(p0[i], s);
  }

  // ---- Interpreting a transition's actions ------------------------------------------------

  lemma {:induction false} RunActionsConcat(sys: System, a: seq<Action>, b: seq<Action>)
    ensures RunActions(sys, a + b) == RunActions(RunActions(sys, a), b)
    decreases |a|
  {
    if a == [] {
      assert a + b == b;
    } else if !sys.returned {
      assert (a + b)[1..] == a[1..] + b;
      RunActionsConcat(Perform(sys, a[0]), a[1..], b);
    }
  }

  /** Of the supervisor, the interpreter reads only the phase. */
  lemma {:induction false} RunActionsSup(sys: System, sup: State, actions: seq<Action>)
    requires sup.phase == sys.sup.phase
    ensures RunActions(sys.(sup := sup), actions) == RunActions(sys, actions).(sup := sup)
    ensures RunActions(sys, actions).sup == sys.sup
    decreases |actions|
  {
    if actions != [] && !sys.returned {
      assert Perform(sys.(sup := sup), actions[0]) == Perform(sys, actions[0]).(sup := sup);
      RunActionsSup(Perform(sys, actions[0]), sup, actions[1..]);
    }
  }

  /** The driver's state after the actions of the transition proper, before any start the event triggers. */
  function AfterTransition(sys: System, e: Event): System
    requires ValidEvent(sys.sup, e)
  {
    var (s1, a1) := Transition(sys.sup, e);
    RunActions(sys.(sup := s1), a1)
  }

  /** If the transition makes the driver return, the starts appended to its actions are never issued. */
  lemma ReturnSkipsStarts(sys: System, e: Event)
    requires ValidEvent(sys.sup, e) && AfterTransition(sys, e).returned
    ensures Dispatch(sys, e) == AfterTransition(sys, e).(sup := Handle(sys.sup, e).0)
  {
    var (s1, a1) := Transition(sys.sup, e);
    var (s2, a2) := Handle(sys.sup, e);
    var reqs := if ShouldAttemptStarts(s1) then ComputeNeededStarts(s1).1 else [];
    assert a2 == a1 + reqs;
    RunActionsConcat(sys.(sup := s2), a1, reqs);
    RunActionsSup(sys.(sup := s1), s2, a1);
  }

  lemma DispatchKeepsProtocol(sys: System, e: Event)
    requires ValidEvent(sys.sup, e) && !AfterTransition(sys, e).returned
    requires Protocol(AfterTransition(sys, e)) && Cursors(Transition(sys.sup, e).0)
    ensures var mid, after := AfterTransition(sys, e), Dispatch(sys, e);
      && Protocol(after)
      && after.sup == Handle(sys.sup, e).0
      && after.sup.phase == mid.sup.phase && Cursors(after.sup) && after.sup.plan == mid.sup.plan
      && after == mid.(sup := after.sup, inFlight := after.inFlight, clock := after.clock,
                       lastRequest := after.lastRequest)
  {
    var (s1, a1) := Transition(sys.sup, e);
    var (s2, a2) := Handle(sys.sup, e);
    var mid := AfterTransition(sys, e);
    RunActionsSup(sys.(sup := s1), s2, a1);
    if ShouldAttemptStarts(s1) {
      var n := |s1.providers|;
      var i, k := s1.scanCursor % n, Visits(s1.scanCursor % n, s1.startIndex % n, n);
      var (ps, reqs) := Scan(s1.plan, s1.providers, i, k);
      RunActionsConcat(sys.(sup := s2), a1, reqs);
      ScanKeepsProtocol(mid, i, k);
      RunActionsSup(WithProviders(mid, ps), s2, reqs);
    }
  }

  lemma RunOne(sys: System, a: Action)
    requires !sys.returned
    ensures RunActions(sys, [a]) == Perform(sys, a)
  {
    assert [a][1..] == [];
  }

  // ---- Steps ------------------------------------------------------------------------------

  lemma NobodyTold(sessions: map<nat, Session>)
    ensures ToldToStop(sessions, {}) == sessions
  {
  }

  /** The actions of an activation: answer the caller if that is pending, preempt, schedule the next tick. */
  function ActivationActions(sup: State, id: nat, symbols: seq<Symbol>): seq<seq<Action>>
    requires id < |sup.providers|
  {
    var s1 := Transition(sup, ProviderStartSucceeded(id, symbols)).0;
    var lower := LowerPriorityOverlaps(s1.providers, id, symbols);
    [if NotificationPending(sup) then [NotifyInitial(Ok(()))] else [],
     if lower != [] then [PreemptSessions(lower)] else [],
     [ScheduleBackoffTick(s1.backoffMs)]]
  }

  lemma ActivationTransition(sup: State, id: nat, symbols: seq<Symbol>)
    requires id < |sup.providers| && (sup.phase.Startup? || sup.phase.Running?)
    ensures var (s1, a1) := Transition(sup, ProviderStartSucceeded(id, symbols));
      var parts := ActivationActions(sup, id, symbols);
      && a1 == parts[0] + (parts[1] + parts[2])
      && s1.phase.Running? && s1.plan == sup.plan && s1.providers == sup.providers[id := Active(symbols)]
  {
  }

  /** Answering changes the answers only; preempting tells the overlapping sessions to stop. */
  lemma ActivationRuns(begin: System, answer: seq<Action>, lower: seq<nat>, delay: nat)
    requires !begin.returned && !begin.sup.phase.Terminated?
    requires answer == [] || answer == [NotifyInitial(Ok(()))]
    ensures RunActions(begin, answer + ((if lower != [] then [PreemptSessions(lower)] else [])
                                        + [ScheduleBackoffTick(delay)])) ==
            begin.(answers := begin.answers + (if answer == [] then [] else [Ok(())]),
                   sessions := ToldToStop(begin.sessions, set i | i in lower),
                   timer := Some(delay))
  {
    var preempt := if lower != [] then [PreemptSessions(lower)] else [];
    var tick := [ScheduleBackoffTick(delay)];
    RunActionsConcat(begin, answer, preempt + tick);
    RunOne(begin, NotifyInitial(Ok(())));
    var notified := RunActions(begin, answer);
    RunActionsConcat(notified, preempt, tick);
    RunOne(notified, PreemptSessions(lower));
    NobodyTold(notified.sessions);
    assert lower == [] ==> (set i | i in lower) == {};
    RunOne(RunActions(notified, preempt), tick[0]);
  }

  lemma AfterActivation(sys: System, x: nat)
    requires Inv(sys) && !sys.returned && x < |sys.inFlight|
    ensures var r := sys.inFlight[x];
      var e := ProviderStartSucceeded(r.id, r.symbols);
      var mid := AfterTransition(Spawned(sys, x), e);
      && Spawned(sys, x).sup == sys.sup
      && mid == Activated(sys, x).(sup := Transition(sys.sup, e).0, timer := Some(Transition(sys.sup, e).0.backoffMs),
                                   answers := mid.answers)
      && mid.sup.providers == Activated(sys, x).sup.providers && mid.sup.plan == sys.sup.plan
      && mid.answers == sys.answers + Answer(sys.sup, e)
  {
    var r := sys.inFlight[x];
    var s1 := Transition(sys.sup, ProviderStartSucceeded(r.id, r.symbols)).0;
    ActivationTransition(sys.sup, r.id, r.symbols);
    ActivationRuns(Spawned(sys, x).(sup := s1), ActivationActions(sys.sup, r.id, r.symbols)[0],
                   LowerPriorityOverlaps(s1.providers, r.id, r.symbols), s1.backoffMs);
  }

  /** The driver survives a step iff the step is no stop and ends no startup; the invariant survives with it. */
  lemma StepKeepsInv(sys: System, l: Label)
    requires Inv(sys) && Enabled(sys, l)
    ensures IdsInRange(sys)
    ensures !Apply(sys, l).returned ==> Inv(Apply(sys, l))
  {
    match l
    case StartOk(x) => StartOkKeepsInv(sys, x);
    case StartFailed(x, error) => StartFailedKeepsInv(sys, x, error);
    case EndReceived(id) => EndKeepsInv(sys, id);
    case TimerFires => TickKeepsInv(sys);
    case ClosedNoticed => StopReturns(sys, DownstreamClosed);
    case StopRequested => StopReturns(sys, Shutdown);
    case TaskReportsEnd(id) =>
    case TaskEndsSilently(id) =>
    case DownstreamDrops =>
  }

  lemma StartOkKeepsInv(sys: System, x: nat)
    requires Inv(sys) && Enabled(sys, StartOk(x))
    ensures Inv(Apply(sys, StartOk(x))) && !Apply(sys, StartOk(x)).returned
  {
    AfterActivation(sys, x);
    ActivateKeepsProtocol(sys, x);
    DispatchKeepsProtocol(Spawned(sys, x), ProviderStartSucceeded(sys.inFlight[x].id, sys.inFlight[x].symbols));
  }

  lemma StartFailedKeepsInv(sys: System, x: nat, error: Error)
    requires Inv(sys) && Enabled(sys, StartFailed(x, error))
    ensures !Apply(sys, StartFailed(x, error)).returned ==> Inv(Apply(sys, StartFailed(x, error)))
    ensures Apply(sys, StartFailed(x, error)).returned <==>
            EndsStartup(sys.sup, ProviderStartFailed(sys.inFlight[x].id, error))
  {
    var id := sys.inFlight[x].id;
    var e := ProviderStartFailed(id, error);
    var before := sys.(inFlight := Without(sys.inFlight, x));
    var (s1, a1) := Transition(sys.sup, e);
    var mid := AfterTransition(before, e);
    WithoutKeepsFlights(sys.sup.providers, s1.providers, sys.inFlight, x);
    if a1 == [] {
      ReleaseKeepsRest(sys, mid, id, InCooldown);
      DispatchKeepsProtocol(before, e);
    } else {
      RunOne(before.(sup := s1), a1[0]);
      ReturnSkipsStarts(before, e);
    }
  }

  lemma EndKeepsInv(sys: System, id: nat)
    requires Inv(sys) && Enabled(sys, EndReceived(id))
    ensures Inv(Apply(sys, EndReceived(id))) && !Apply(sys, EndReceived(id)).returned
  {
    var e := SessionEnded(id, sys.sessions[id].symbols);
    var before := WithStatus(sys, id, Finished);
    var mid := AfterTransition(before, e);
    ReleaseKeepsRest(sys, mid, id, InCooldown);
    DispatchKeepsProtocol(before, e);
  }

  lemma TickKeepsInv(sys: System)
    requires Inv(sys) && Enabled(sys, TimerFires)
    ensures !Apply(sys, TimerFires).returned <==> !TickTerminates(sys.sup)
    ensures !Apply(sys, TimerFires).returned ==> Inv(Apply(sys, TimerFires))
  {
    var before := sys.(timer := None);
    var (s1, a1) := Transition(sys.sup, BackoffTick);
    RunOne(before.(sup := s1), a1[0]);
    if TickTerminates(sys.sup) {
      ReturnSkipsStarts(before, BackoffTick);
    } else {
      ClearingKeepsProtocol(sys);
      DispatchKeepsProtocol(before, BackoffTick);
    }
  }

  /** A stop tells every session, waits for all of them and issues no start, whatever `handle` appends. */
  lemma StopReturns(sys: System, e: Event)
    requires !sys.returned && (e.Shutdown? || e.DownstreamClosed?)
    ensures var after := Dispatch(sys, e);
      && |Handle(sys.sup, e).1| >= 2 && Handle(sys.sup, e).1[..2] == [StopAll, AwaitAll]
      && after.returned && after.sessions == map[]
      && after.inFlight == sys.inFlight && after.lastRequest == sys.lastRequest && after.answers == sys.answers
  {
    var s1 := Transition(sys.sup, e).0;
    var begin := sys.(sup := s1);
    RunActionsConcat(begin, [StopAll], [AwaitAll]);
    RunOne(begin, StopAll);
    RunOne(Perform(begin, StopAll), AwaitAll);
    assert [StopAll] + [AwaitAll] == [StopAll, AwaitAll];
    ReturnSkipsStarts(sys, e);
  }

  // ---- Whole runs -------------------------------------------------------------------------

  lemma InitialInv(plan: Plan, n: nat, initialTx: bool)
    requires n > 0
    ensures var sys := Initial(plan, n, initialTx);
      Inv(sys) && !sys.returned && sys.sup.plan == plan && |sys.sup.providers| == n && sys.answers == [] &&
          sys.sup.backoffMs == plan.minBackoffMs
  {
    var sys := Unstarted(plan, n, initialTx);
    assert Protocol(sys);
    if ShouldAttemptStarts(sys.sup) {
      ScanKeepsProtocol(sys, 0, Visits(0, 0, n));
    }
  }

  /** The invariant holds in every state of every run in which the driver has not returned. */
  lemma {:induction false} RunInv(run: seq<System>, labels: seq<Label>, plan: Plan, n: nat, initialTx: bool, t: nat)
    requires IsRun(run, labels, plan, n, initialTx) && t < |run| && !run[t].returned
    ensures Inv(run[t]) && run[t].sup.plan == plan && |run[t].sup.providers| == n
  {
    if t == 0 {
      InitialInv(plan, n, initialTx);
    } else {
      RunInv(run, labels, plan, n, initialTx, t - 1);
      StepKeepsInv(run[t - 1], labels[t - 1]);
      ApplyKeepsPlan(run[t - 1], labels[t - 1]);
    }
  }

  lemma ApplyKeepsPlan(sys: System, l: Label)
    requires Enabled(sys, l) && IdsInRange(sys)
    ensures Prepared(sys, l).sup == sys.sup && Prepared(sys, l).answers == sys.answers
    ensures EventOf(sys, l).None? ==> Apply(sys, l).sup == sys.sup
    ensures EventOf(sys, l).Some? ==> Apply(sys, l).sup == Handle(sys.sup, EventOf(sys, l).value).0
    ensures Apply(sys, l).sup.plan == sys.sup.plan && |Apply(sys, l).sup.providers| == |sys.sup.providers|
  {
    if EventOf(sys, l).Some? {
      var e := EventOf(sys, l).value;
      var sup := Handle(sys.sup, e).0;
      RunActionsSup(Prepared(sys, l).(sup := sup), sup, Handle(sys.sup, e).1);
      HandleKeepsPlan(sys.sup, e);
    }
  }

  lemma HandleKeepsPlan(s: State, e: Event)
    requires ValidEvent(s, e)
    ensures Handle(s, e).0.plan == s.plan && |Handle(s, e).0.providers| == |s.providers|
  {
    TransitionKeepsPlan(s, e);
  }

  lemma TransitionKeepsPlan(s: State, e: Event)
    requires ValidEvent(s, e)
    ensures Transition(s, e).0.plan == s.plan && |Transition(s, e).0.providers| == |s.providers|
  {
  }

  /** The hypothesis `IdsInRange` of a step excludes nothing: it holds wherever a run can get. */
  lemma RunIdsInRange(run: seq<System>, labels: seq<Label>, plan: Plan, n: nat, initialTx: bool, t: nat)
    requires IsRun(run, labels, plan, n, initialTx) && t < |run| && !run[t].returned
    ensures IdsInRange(run[t])
  {
    RunInv(run, labels, plan, n, initialTx, t);
  }

  /**
   * Two Active providers sharing a symbol: the lower-priority one has been told to stop,
   * or it was asked to start first and became Active last.
   */
  lemma OverlapsAreTransient(run: seq<System>, labels: seq<Label>, plan: Plan, n: nat, initialTx: bool, t: nat, j: nat,
                             k: nat, s: Symbol)
    requires IsRun(run, labels, plan, n, initialTx) && t < |run| && !run[t].returned
    requires j < k < n && j < |run[t].sup.providers| && k < |run[t].sup.providers|
    requires run[t].sup.providers[j].Active? && run[t].sup.providers[k].Active?
    requires s in run[t].sup.providers[j].symbols && s in run[t].sup.providers[k].symbols
    ensures var sys := run[t];
      && k in sys.sessions && k < |sys.lastRequest| && k < |sys.lastActivation|
      && (sys.sessions[k].stopTold ||
          (sys.lastRequest[k] < sys.lastRequest[j] && sys.lastActivation[j] < sys.lastActivation[k]))
  {
    RunInv(run, labels, plan, n, initialTx, t);
    assert Holds(run[t].sup.providers[j], s) && Holds(run[t].sup.providers[k], s);
  }

  /**
   * A provider is Connecting iff exactly one request for it is in flight, and Active iff its session is unfinished,
   * with the same symbols; so the session spawned for a successful start never replaces an unfinished one.
   */
  lemma OneRequestOneSession(run: seq<System>, labels: seq<Label>, plan: Plan, n: nat, initialTx: bool, t: nat, i: nat)
    requires IsRun(run, labels, plan, n, initialTx) && t < |run| && !run[t].returned && i < n
    ensures var sys := run[t];
      && i < |sys.sup.providers|
      && (sys.sup.providers[i].Connecting? <==> exists x :: 0 <= x < |sys.inFlight| && sys.inFlight[x].id == i)
      && (forall x | 0 <= x < |sys.inFlight| && sys.inFlight[x].id == i ::
            && sys.sup.providers[i] == Connecting(sys.inFlight[x].symbols)
            && (forall y | 0 <= y < |sys.inFlight| && sys.inFlight[y].id == i :: y == x)
            && (i in sys.sessions ==> sys.sessions[i].status == Finished))
      && (sys.sup.providers[i].Active? <==> i in sys.sessions && sys.sessions[i].status != Finished)
      && (sys.sup.providers[i].Active? ==> sys.sup.providers[i].symbols == sys.sessions[i].symbols)
  {
    RunInv(run, labels, plan, n, initialTx, t);
  }

  // ---- Coverage ---------------------------------------------------------------------------

  lemma Remainder(i: nat, n: nat)
    requires i < n
    ensures i % n == i
  {
  }

  /** Such an event puts the cursor at the start of a new round. */
  lemma NewRound(s: State, e: Event)
    requires ValidEvent(s, e) && Cursors(s) && (s.phase.Startup? || s.phase.Running?)
    requires e.ProviderStartSucceeded? || (e.BackoffTick? && !TickTerminates(s))
    ensures var s1 := Transition(s, e).0;
      s1.plan == s.plan && s1.scanCursor == s1.startIndex < |s1.providers| && !s1.roundExhausted
  {
  }

  /** After such an event the supervisor scans all providers, if any has work. */
  lemma HandleScansAll(s: State, e: Event)
    requires ValidEvent(s, e) && Cursors(s) && (s.phase.Startup? || s.phase.Running?)
    requires e.ProviderStartSucceeded? || (e.BackoffTick? && !TickTerminates(s))
    ensures var s1 := Transition(s, e).0;
      && s1.plan == s.plan && s1.startIndex < |s1.providers|
      && Handle(s, e).0.providers ==
         if HasIdleProviderWithWork(s.plan, s1.providers)
         then Scan(s.plan, s1.providers, s1.startIndex, Visits(s1.startIndex, s1.startIndex, |s1.providers|)).0
         else s1.providers
  {
    var s1 := Transition(s, e).0;
    NewRound(s, e);
    Remainder(s1.startIndex, |s1.providers|);
  }

  /** After a successful start or a tick that does not end startup, no idle provider is left with work. */
  lemma RoundQuiesces(s: State, e: Event)
    requires ValidEvent(s, e) && Cursors(s) && (s.phase.Startup? || s.phase.Running?)
    requires e.ProviderStartSucceeded? || (e.BackoffTick? && !TickTerminates(s))
    ensures !HasIdleProviderWithWork(s.plan, Handle(s, e).0.providers)
    ensures OnlyStarts(Transition(s, e).0.providers, Handle(s, e).0.providers)
  {
    var s1 := Transition(s, e).0;
    HandleScansAll(s, e);
    ScanQuiesces(s.plan, s1.providers, s1.startIndex);
  }

  lemma ScanQuiesces(plan: Plan, ps: seq<ProviderState>, i: nat)
    requires i < |ps|
    ensures var after := Scan(plan, ps, i, Visits(i, i, |ps|)).0;
      !HasIdleProviderWithWork(plan, after) && OnlyStarts(ps, after)
    ensures OnlyStarts(ps, ps)
  {
    FullScanQuiesces(plan, ps, i, Visits(i, i, |ps|));
    ScanOnlyStarts(plan, ps, i, Visits(i, i, |ps|));
  }

  /** After such a tick every servable symbol is held by the lowest-index provider capable of it. */
  lemma TickStepCovers(sys: System, i: nat, s: Symbol)
    requires Inv(sys) && Enabled(sys, TimerFires) && !TickTerminates(sys.sup) && LowestCapable(sys.sup.plan, i, s)
    requires i < |sys.sup.providers|
    ensures var ps := Apply(sys, TimerFires).sup.providers; i < |ps| && Holds(ps[i], s)
  {
    var after := Apply(sys, TimerFires);
    TickKeepsInv(sys);
    ApplyKeepsPlan(sys, TimerFires);
    RoundQuiesces(sys.sup, BackoffTick);
    var ps := after.sup.providers;
    assert ps == Handle(sys.sup, BackoffTick).0.providers;
    assert !Transition(sys.sup, BackoffTick).0.providers[i].InCooldown?;
    QuietCovers(sys.sup.plan, ps, i, s);
  }

  lemma QuietCovers(plan: Plan, ps: seq<ProviderState>, i: nat, s: Symbol)
    requires PlannedWell(plan, ps) && !HasIdleProviderWithWork(plan, ps)
    requires i < |ps| && !ps[i].InCooldown? && LowestCapable(plan, i, s)
    ensures Holds(ps[i], s)
  {
    if IsIdle(ps[i]) {
      assert forall j | 0 <= j < i :: !Holds(ps[j], s);
      NeedsSomething(plan, ps, i);
    }
  }

  /** The first requests partition the servable symbols among their lowest-index capable providers. */
  lemma InitialRequestsPartition(plan: Plan, n: nat, initialTx: bool, i: nat, s: Symbol)
    requires i < n
    ensures var flights := Initial(plan, n, initialTx).inFlight;
      (exists x :: 0 <= x < |flights| && flights[x].id == i && s in flights[x].symbols) <==> LowestCapable(plan, i, s)
  {
    var sys := Initial(plan, n, initialTx);
    InitialInv(plan, n, initialTx);
    InitialHoldings(plan, n, initialTx, i, s);
    assert FlightsMatch(sys.sup.providers, sys.inFlight);
  }

  /** The first starts are those of a scan of the idle providers from the front. */
  lemma InitialProviders(plan: Plan, n: nat, initialTx: bool)
    requires n > 0
    ensures var idle := Unstarted(plan, n, initialTx).sup.providers;
      Initial(plan, n, initialTx).sup.providers ==
      if HasIdleProviderWithWork(plan, idle) then Scan(plan, idle, 0, Visits(0, 0, n)).0 else idle
  {
    var unstarted := Unstarted(plan, n, initialTx);
    Remainder(0, n);
    if ShouldAttemptStarts(unstarted.sup) {
      ScanKeepsProtocol(unstarted, 0, Visits(0, 0, n));
    }
  }

  lemma InitialHoldings(plan: Plan, n: nat, initialTx: bool, i: nat, s: Symbol)
    requires i < n
    ensures var ps := Initial(plan, n, initialTx).sup.providers;
      |ps| == n && !ps[i].Active? && (Holds(ps[i], s) <==> LowestCapable(plan, i, s))
  {
    var ps := Unstarted(plan, n, initialTx).sup.providers;
    InitialProviders(plan, n, initialTx);
    FrontScan(plan, ps, 0);
    if !HasIdleProviderWithWork(plan, ps) && LowestCapable(plan, i, s) {
      NeedsSomething(plan, ps, i);
    }
  }

  // ---- Answer and backoff over whole runs -------------------------------------------------

  lemma {:induction false} AnswersAfter(sys: System, actions: seq<Action>)
    ensures |RunActions(sys, actions).answers| <= |sys.answers| + |Notifications(actions)|
    ensures Notifications(actions) == [] ==> RunActions(sys, actions).answers == sys.answers
    decreases |actions|
  {
    if actions != [] && !sys.returned {
      AnswersAfter(Perform(sys, actions[0]), actions[1..]);
    }
  }

  lemma DispatchAnswers(sys: System, e: Event)
    requires ValidEvent(sys.sup, e)
    ensures |Dispatch(sys, e).answers| + (if NotificationPending(Dispatch(sys, e).sup) then 1 else 0)
            <= |sys.answers| + (if NotificationPending(sys.sup) then 1 else 0)
  {
    var (s2, a2) := Handle(sys.sup, e);
    NotifiesAtMostOnce(sys.sup, e);
    AnswersAfter(sys.(sup := s2), a2);
    RunActionsSup(sys.(sup := s2), s2, a2);
  }

  lemma RunStep(run: seq<System>, labels: seq<Label>, plan: Plan, n: nat, initialTx: bool, t: nat)
    requires IsRun(run, labels, plan, n, initialTx) && t < |labels|
    ensures t + 1 < |run| && !run[t].returned
    ensures Enabled(run[t], labels[t]) && IdsInRange(run[t]) && run[t + 1] == Apply(run[t], labels[t])
  {
  }

  /** Answers given plus the one still owed. */
  function AnswersDue(sys: System): nat {
    |sys.answers| + if NotificationPending(sys.sup) then 1 else 0
  }

  lemma StepAnswers(sys: System, l: Label)
    requires Enabled(sys, l) && IdsInRange(sys)
    ensures AnswersDue(Apply(sys, l)) <= AnswersDue(sys)
  {
    ApplyKeepsPlan(sys, l);
    if EventOf(sys, l).Some? {
      DispatchAnswers(Prepared(sys, l), EventOf(sys, l).value);
    }
  }

  lemma {:induction false} AnswersDueOverRun(run: seq<System>, labels: seq<Label>, plan: Plan, n: nat, initialTx: bool,
                                             t: nat)
    requires IsRun(run, labels, plan, n, initialTx) && t < |run| && n > 0
    ensures AnswersDue(run[t]) <= 1
  {
    if t == 0 {
      InitialInv(plan, n, initialTx);
    } else {
      AnswersDueOverRun(run, labels, plan, n, initialTx, t - 1);
      RunStep(run, labels, plan, n, initialTx, t - 1);
      StepAnswers(run[t - 1], labels[t - 1]);
    }
  }

  /** The caller gets at most one answer, whatever happens. */
  lemma OneAnswer(run: seq<System>, labels: seq<Label>, plan: Plan, n: nat, initialTx: bool, t: nat)
    requires IsRun(run, labels, plan, n, initialTx) && t < |run|
    ensures |run[t].answers| <= 1
  {
    if t > 0 {
      RunStep(run, labels, plan, n, initialTx, 0);
    }
    if n > 0 {
      AnswersDueOverRun(run, labels, plan, n, initialTx, t);
    }
  }

  predicate IncreasesDelay(sys: System, l: Label) {
    l.TimerFires? && sys.sup.attempted && !TickTerminates(sys.sup)
  }

  /** The number of ticks up to step `t` that increased the delay. */
  ghost function Increases(run: seq<System>, labels: seq<Label>, t: nat): nat
    requires t <= |labels| < |run|
  {
    if t == 0 then 0 else Increases(run, labels, t - 1) + if IncreasesDelay(run[t - 1], labels[t - 1]) then 1 else 0
  }

  lemma InitialBackoff(plan: Plan, n: nat, initialTx: bool)
    ensures Initial(plan, n, initialTx).sup.backoffMs == plan.minBackoffMs &&
            Initial(plan, n, initialTx).sup.plan == plan
  {
    if n > 0 {
      InitialInv(plan, n, initialTx);
    }
  }

  lemma StepBackoff(sys: System, l: Label, k: nat)
    requires Inv(sys) && Enabled(sys, l) && IdsInRange(sys) && sys.sup.plan.maxBackoffMs <= U64_MAX
    requires sys.sup.backoffMs == BackoffAfter(sys.sup.plan, k)
    ensures Apply(sys, l).sup.plan == sys.sup.plan
    ensures Apply(sys, l).sup.backoffMs == BackoffAfter(sys.sup.plan, if IncreasesDelay(sys, l) then k + 1 else k)
  {
    ApplyKeepsPlan(sys, l);
    if EventOf(sys, l).Some? {
      BackoffStep(sys.sup, EventOf(sys, l).value, k);
    }
  }

  lemma {:induction false} BackoffOverRun(run: seq<System>, labels: seq<Label>, plan: Plan, n: nat, initialTx: bool,
                                          t: nat)
    requires IsRun(run, labels, plan, n, initialTx) && t < |run| && plan.maxBackoffMs <= U64_MAX
    ensures run[t].sup.backoffMs == BackoffAfter(plan, Increases(run, labels, t)) && run[t].sup.plan == plan
  {
    if t == 0 {
      InitialBackoff(plan, n, initialTx);
    } else {
      BackoffOverRun(run, labels, plan, n, initialTx, t - 1);
      BackoffAfterStep(run, labels, plan, n, initialTx, t - 1, Increases(run, labels, t - 1));
    }
  }

  lemma BackoffAfterStep(run: seq<System>, labels: seq<Label>, plan: Plan, n: nat, initialTx: bool, t: nat, k: nat)
    requires IsRun(run, labels, plan, n, initialTx) && t < |labels| && plan.maxBackoffMs <= U64_MAX
    requires run[t].sup.plan == plan && run[t].sup.backoffMs == BackoffAfter(plan, k)
    ensures run[t + 1].sup.plan == plan
    ensures run[t + 1].sup.backoffMs == BackoffAfter(plan, if IncreasesDelay(run[t], labels[t]) then k + 1 else k)
  {
    RunStep(run, labels, plan, n, initialTx, t);
    RunInv(run, labels, plan, n, initialTx, t);
    StepBackoff(run[t], labels[t], k);
  }

  /**
   * In a run the delay never returns to its minimum: a provider is Connecting when it becomes Active, so
   * the delay after k increasing ticks is min(max, min * factor^k), and the pending timer carries it.
   */
  lemma BackoffFollowsTicks(run: seq<System>, labels: seq<Label>, plan: Plan, n: nat, initialTx: bool, t: nat)
    requires IsRun(run, labels, plan, n, initialTx) && t < |run| && plan.maxBackoffMs <= U64_MAX
    ensures run[t].sup.backoffMs == BackoffAfter(plan, Increases(run, labels, t)) && run[t].sup.plan == plan
    ensures !run[t].returned ==> run[t].timer == Some(run[t].sup.backoffMs)
  {
    BackoffOverRun(run, labels, plan, n, initialTx, t);
    if !run[t].returned {
      RunInv(run, labels, plan, n, initialTx, t);
    }
  }
}

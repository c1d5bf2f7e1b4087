/** How startup ends over whole runs: exactly when it fails, and that a tick never ends it. */
module StartupProps {
  import opened Wrappers
  import opened Market
  import opened SupervisorSpec
  import opened SupervisorProps
  import opened ControllerSpec
  import opened ControllerProps

  // ---- The shape of a startup -------------------------------------------------------------

  /** During startup nothing is Active and rounds start at provider 0; while an answer is owed no round is exhausted. */
  ghost predicate StartupShape(s: State, initialTx: bool) {
    s.phase.Startup? ==>
      && s.startIndex == 0 && !HasAnyActive(s.providers)
      && s.phase.initialTx == initialTx && (initialTx ==> !s.roundExhausted)
  }

  /** Connecting providers were asked for something. */
  ghost predicate AskedForSomething(ps: seq<ProviderState>) {
    forall i | 0 <= i < |ps| && ps[i].Connecting? :: ps[i].symbols != []
  }

  lemma TransitionKeepsShape(s: State, e: Event, initialTx: bool)
    requires ValidEvent(s, e) && |s.providers| > 0 && StartupShape(s, initialTx) && AskedForSomething(s.providers)
    ensures StartupShape(Transition(s, e).0, initialTx) && AskedForSomething(Transition(s, e).0.providers)
  {
  }

  lemma {:induction false} ScanAsks(plan: Plan, ps: seq<ProviderState>, i: nat, k: nat)
    requires i < |ps| && AskedForSomething(ps)
    ensures AskedForSomething(Scan(plan, ps, i, k).0)
    decreases k
  {
    if k > 0 {
      VisitAsks(plan, ps, i);
      ScanAsks(plan, Visit(plan, ps, i).0, Next(i, |ps|), k - 1);
    }
  }

  lemma VisitAsks(plan: Plan, ps: seq<ProviderState>, i: nat)
    requires i < |ps| && AskedForSomething(ps)
    ensures AskedForSomething(Visit(plan, ps, i).0)
  {
    if CanStream(plan, i) {
      NeededExact(plan, ps, i, "");
    }
  }

  lemma HandleKeepsShape(s: State, e: Event, initialTx: bool)
    requires ValidEvent(s, e) && |s.providers| > 0 && StartupShape(s, initialTx) && AskedForSomething(s.providers)
    ensures StartupShape(Handle(s, e).0, initialTx) && AskedForSomething(Handle(s, e).0.providers)
  {
    var s1 := Transition(s, e).0;
    TransitionKeepsShape(s, e, initialTx);
    TransitionKeepsPlan(s, e);
    if ShouldAttemptStarts(s1) {
      ScanKeepsShape(s1);
    }
  }

  lemma ScanKeepsShape(s: State)
    requires |s.providers| > 0 && AskedForSomething(s.providers)
    ensures AskedForSomething(ComputeNeededStarts(s).0) &&
            (HasAnyActive(ComputeNeededStarts(s).0) ==> HasAnyActive(s.providers))
  {
    var n := |s.providers|;
    if !s.roundExhausted {
      ScanAsks(s.plan, s.providers, s.scanCursor % n, Visits(s.scanCursor % n, s.startIndex % n, n));
      ScanOnlyStarts(s.plan, s.providers, s.scanCursor % n, Visits(s.scanCursor % n, s.startIndex % n, n));
    }
  }

  lemma InitialShape(plan: Plan, n: nat, initialTx: bool)
    requires n > 0
    ensures var s := Initial(plan, n, initialTx).sup; StartupShape(s, initialTx) && AskedForSomething(s.providers)
  {
    var unstarted := Unstarted(plan, n, initialTx);
    InitialInv(plan, n, initialTx);
    InitialProviders(plan, n, initialTx);
    if ShouldAttemptStarts(unstarted.sup) {
      Remainder(0, n);
      ScanKeepsShape(unstarted.sup);
      ScanKeepsProtocol(unstarted, 0, Visits(0, 0, n));
    }
  }

  /** The shape of a startup, in every state of every run. */
  lemma {:induction false} RunShape(run: seq<System>, labels: seq<Label>, plan: Plan, n: nat, initialTx: bool, t: nat)
    requires IsRun(run, labels, plan, n, initialTx) && t < |run| && n > 0
    ensures StartupShape(run[t].sup, initialTx) && AskedForSomething(run[t].sup.providers)
  {
    if t == 0 {
      InitialShape(plan, n, initialTx);
    } else {
      RunShape(run, labels, plan, n, initialTx, t - 1);
      RunStep(run, labels, plan, n, initialTx, t - 1);
      RunInv(run, labels, plan, n, initialTx, t - 1);
      StepKeepsShape(run[t - 1], labels[t - 1], initialTx);
    }
  }

  lemma StepKeepsShape(sys: System, l: Label, initialTx: bool)
    requires Enabled(sys, l) && IdsInRange(sys) && |sys.sup.providers| > 0
    requires StartupShape(sys.sup, initialTx) && AskedForSomething(sys.sup.providers)
    ensures StartupShape(Apply(sys, l).sup, initialTx) && AskedForSomething(Apply(sys, l).sup.providers)
  {
    ApplyKeepsPlan(sys, l);
    if EventOf(sys, l).Some? {
      HandleKeepsShape(sys.sup, EventOf(sys, l).value, initialTx);
    }
  }

  // ---- Ticks ------------------------------------------------------------------------------

  /** A tick never ends the startup: in no reachable state do its conditions hold. */
  lemma TicksNeverTerminate(run: seq<System>, labels: seq<Label>, plan: Plan, n: nat, initialTx: bool, t: nat)
    requires IsRun(run, labels, plan, n, initialTx) && t < |run| && !run[t].returned
    ensures !TickTerminates(run[t].sup)
  {
    RunInv(run, labels, plan, n, initialTx, t);
    RunShape(run, labels, plan, n, initialTx, t);
  }

  /**
   * After every tick the driver goes on, and every servable symbol is held by the lowest-index provider capable of it.
   */
  lemma TickCovers(run: seq<System>, labels: seq<Label>, plan: Plan, n: nat, initialTx: bool, t: nat)
    requires IsRun(run, labels, plan, n, initialTx) && t < |labels| && labels[t] == TimerFires
    ensures !run[t + 1].returned && |run[t + 1].sup.providers| == n
    ensures forall i: nat, s | i < n && LowestCapable(plan, i, s) :: Holds(run[t + 1].sup.providers[i], s)
  {
    RunStep(run, labels, plan, n, initialTx, t);
    RunInv(run, labels, plan, n, initialTx, t);
    TicksNeverTerminate(run, labels, plan, n, initialTx, t);
    TickKeepsInv(run[t]);
    RunInv(run, labels, plan, n, initialTx, t + 1);
    forall i: nat, s | i < n && LowestCapable(plan, i, s) ensures Holds(run[t + 1].sup.providers[i], s) {
      TickStepCovers(run[t], i, s);
    }
  }

  // ---- Failures ---------------------------------------------------------------------------

  /** The answers of a step are those of its event. */
  lemma StepAnswersExactly(sys: System, l: Label)
    requires Inv(sys) && Enabled(sys, l) && IdsInRange(sys)
    ensures Apply(sys, l).answers == sys.answers + if EventOf(sys, l).Some? then Answer(sys.sup, EventOf(sys, l).value)
            else []
  {
    ApplyKeepsPlan(sys, l);
    if EventOf(sys, l).Some? {
      var e := EventOf(sys, l).value;
      if EndsStartup(sys.sup, e) {
        EndingStep(sys, l);
      } else if Answer(sys.sup, e) != [] {
        AfterActivation(sys, l.x);
        ActivateKeepsProtocol(sys, l.x);
        DispatchKeepsProtocol(Spawned(sys, l.x), e);
      } else {
        NotifiesAtMostOnce(sys.sup, e);
        HandleNotifications(sys.sup, e);
        TransitionNotifications(sys.sup, e);
        AnswersAfter(Prepared(sys, l).(sup := Handle(sys.sup, e).0), Handle(sys.sup, e).1);
      }
    }
  }

  /** The step that ends a startup answers with an error and returns at once, leaving the other requests in flight. */
  lemma EndingStep(sys: System, l: Label)
    requires Enabled(sys, l) && IdsInRange(sys) && EventOf(sys, l).Some? && EndsStartup(sys.sup, EventOf(sys, l).value)
    ensures var after, e := Apply(sys, l), EventOf(sys, l).value;
      && after.returned && after.inFlight == Prepared(sys, l).inFlight
      && after.answers == sys.answers + Answer(sys.sup, e) && Answer(sys.sup, e)[0].Err?
  {
    var e := EventOf(sys, l).value;
    var (s2, a2) := Handle(sys.sup, e);
    ApplyKeepsPlan(sys, l);
    NotifiesAtMostOnce(sys.sup, e);
    HandleNotifications(sys.sup, e);
    TransitionNotifications(sys.sup, e);
    RunOne(Prepared(sys, l).(sup := s2), a2[0]);
    SingletonNotifications(a2[0]);
  }

  /** The step answers the caller with an error. */
  ghost predicate AnswersError(before: System, after: System) {
    exists errors :: after.answers == before.answers + [Err(errors)]
  }

  /** The step is the failure of the last provider's start. */
  predicate LastStartFails(sys: System, l: Label, n: nat) {
    l.StartFailed? && l.x < |sys.inFlight| && sys.inFlight[l.x].id + 1 == n
  }

  /**
   * Startup fails exactly when, while the answer is owed, the start of the last provider of the chain fails: whatever
   * else is in flight, and however often other providers have failed. The driver then returns with the other requests
   * still in flight.
   */
  lemma StartupFailsExactly(run: seq<System>, labels: seq<Label>, plan: Plan, n: nat, initialTx: bool, t: nat)
    requires IsRun(run, labels, plan, n, initialTx) && t < |labels|
    ensures AnswersError(run[t], run[t + 1]) <==>
            run[t].sup.phase.Startup? && initialTx && LastStartFails(run[t], labels[t], n)
    ensures AnswersError(run[t], run[t + 1]) ==>
            run[t + 1].returned && run[t + 1].inFlight == Without(run[t].inFlight, labels[t].x)
  {
    var sys, l := run[t], labels[t];
    RunStep(run, labels, plan, n, initialTx, t);
    RunInv(run, labels, plan, n, initialTx, t);
    RunShape(run, labels, plan, n, initialTx, t);
    StepAnswersExactly(sys, l);
    if EventOf(sys, l).Some? {
      EndsStartupExactly(sys, l, n, initialTx);
      if EndsStartup(sys.sup, EventOf(sys, l).value) {
        EndingStep(sys, l);
      }
    }
    AnswerIsError(run[t].answers, run[t + 1].answers,
                  if EventOf(sys, l).Some? then Answer(sys.sup, EventOf(sys, l).value) else []);
  }

  lemma AnswerIsError(before: seq<Result<(), seq<Error>>>, after: seq<Result<(), seq<Error>>>,
                      more: seq<Result<(), seq<Error>>>)
    requires after == before + more && |more| <= 1
    ensures (exists errors :: after == before + [Err(errors)]) <==> |more| == 1 && more[0].Err?
  {
    if |more| == 1 && more[0].Err? {
      assert after == before + [Err(more[0].error)];
    }
    if errors :| after == before + [Err(errors)] {
      assert after[|before|] == Err(errors);
    }
  }

  lemma EndsStartupExactly(sys: System, l: Label, n: nat, initialTx: bool)
    requires Inv(sys) && Enabled(sys, l) && EventOf(sys, l).Some? && StartupShape(sys.sup, initialTx) &&
             |sys.sup.providers| == n
    ensures EndsStartup(sys.sup, EventOf(sys, l).value) <==>
            sys.sup.phase.Startup? && initialTx && LastStartFails(sys, l, n)
  {
  }

  ghost predicate CapableOfNothing(plan: Plan, id: nat) {
    forall s :: !Capable(plan, id, s)
  }

  /**
   * If the last provider can serve nothing that is required, no run answers with an error, however many starts fail.
   */
  lemma NeverFails(run: seq<System>, labels: seq<Label>, plan: Plan, n: nat, initialTx: bool, t: nat)
    requires IsRun(run, labels, plan, n, initialTx) && t < |labels|
    requires n > 0 ==> CapableOfNothing(plan, n - 1)
    ensures !AnswersError(run[t], run[t + 1])
  {
    StartupFailsExactly(run, labels, plan, n, initialTx, t);
    RunStep(run, labels, plan, n, initialTx, t);
    RunInv(run, labels, plan, n, initialTx, t);
    RunShape(run, labels, plan, n, initialTx, t);
    var ps := run[t].sup.providers;
    if LastStartFails(run[t], labels[t], n) {
      assert ps[n - 1].Connecting? && Holds(ps[n - 1], ps[n - 1].symbols[0]);
    }
  }

  lemma InitialPhase(plan: Plan, n: nat)
    requires n > 0
    ensures Initial(plan, n, true).sup.phase.Startup?
  {
    var unstarted := Unstarted(plan, n, true);
    if ShouldAttemptStarts(unstarted.sup) {
      Remainder(0, n);
      ScanKeepsProtocol(unstarted, 0, Visits(0, 0, n));
    }
  }

  // ---- When startup can fail --------------------------------------------------------------

  /** The number of providers that are not in cooldown. */
  function Awake(ps: seq<ProviderState>): nat {
    if ps == [] then 0 else Awake(ps[..|ps| - 1]) + if ps[|ps| - 1].InCooldown? then 0 else 1
  }

  lemma {:induction false} AwakeShrinks(ps: seq<ProviderState>, qs: seq<ProviderState>)
    requires |ps| == |qs| && forall i | 0 <= i < |ps| && ps[i].InCooldown? :: qs[i].InCooldown?
    ensures Awake(qs) <= Awake(ps)
    ensures (exists j :: 0 <= j < |ps| && !ps[j].InCooldown? && qs[j].InCooldown?) ==> Awake(qs) < Awake(ps)
  {
    if ps != [] {
      AwakeShrinks(ps[..|ps| - 1], qs[..|qs| - 1]);
      if j :| 0 <= j < |ps| && !ps[j].InCooldown? && qs[j].InCooldown? {
        assert j < |ps| - 1 ==> !ps[..|ps| - 1][j].InCooldown? && qs[..|qs| - 1][j].InCooldown?;
      }
    }
  }

  /** The last provider is being asked, or has nothing to do as long as others hold its symbols. */
  ghost predicate LastIsReady(plan: Plan, ps: seq<ProviderState>) {
    |ps| > 0 && !ps[|ps| - 1].InCooldown? && !HasWork(plan, ps, |ps| - 1)
  }

  /** As long as startup has not failed, some request is in flight; the last provider's, if no other is. */
  lemma SomeoneIsAsked(sys: System, s: Symbol) returns (x: nat)
    requires Inv(sys) && LastIsReady(sys.sup.plan, sys.sup.providers) && !HasAnyActive(sys.sup.providers)
    requires Capable(sys.sup.plan, |sys.sup.providers| - 1, s)
    ensures x < |sys.inFlight|
  {
    var ps, last := sys.sup.providers, |sys.sup.providers| - 1;
    if j :| 0 <= j < |ps| && ps[j].Connecting? {
      x :| 0 <= x < |sys.inFlight| && sys.inFlight[x].id == j;
    } else {
      assert IsIdle(ps[last]) && !HasSymbolBefore(ps, last, s);
      NeedsSomething(sys.sup.plan, ps, last);
    }
  }

  /** The failure of another provider's start puts it into cooldown and moves the cursor behind it. */
  lemma OtherFailureTransition(s: State, id: nat, error: Error)
    requires id + 1 < |s.providers| && s.phase.Startup? && s.phase.initialTx && StartupShape(s, true)
    ensures !EndsStartup(s, ProviderStartFailed(id, error))
    ensures var s1 := Transition(s, ProviderStartFailed(id, error)).0;
      && s1.plan == s.plan && s1.phase.Startup? && s1.providers == s.providers[id := InCooldown]
      && s1.scanCursor == id + 1 && s1.startIndex == 0 && !s1.roundExhausted
  {
  }

  /** A scan from a cursor to the front visits the last provider and leaves it ready. */
  lemma ScanReadies(s: State)
    requires s.scanCursor < |s.providers| && s.startIndex == 0 && !s.roundExhausted &&
             !s.providers[|s.providers| - 1].InCooldown?
    ensures var after := if ShouldAttemptStarts(s) then ComputeNeededStarts(s).0 else s.providers;
      OnlyStarts(s.providers, after) && LastIsReady(s.plan, after)
  {
    var n := |s.providers|;
    Remainder(s.scanCursor, n);
    Remainder(0, n);
    if ShouldAttemptStarts(s) {
      var k := Visits(s.scanCursor, 0, n);
      ScanLeavesNoWork(s.plan, s.providers, s.scanCursor, k, n - 1);
      ScanOnlyStarts(s.plan, s.providers, s.scanCursor, k);
    }
  }

  /** Afterwards the last provider is still ready, and one provider less is awake. */
  lemma OtherFailure(s: State, id: nat, error: Error)
    requires id + 1 < |s.providers| && LastIsReady(s.plan, s.providers) && s.providers[id].Connecting?
    requires s.phase.Startup? && s.phase.initialTx && StartupShape(s, true)
    ensures var after := Handle(s, ProviderStartFailed(id, error)).0;
      && !EndsStartup(s, ProviderStartFailed(id, error))
      && after.phase.Startup? && LastIsReady(s.plan, after.providers)
      && Awake(after.providers) < Awake(s.providers)
  {
    var e := ProviderStartFailed(id, error);
    HandleNotifications(s, e);
    OtherFailureTransition(s, id, error);
    ScanReadies(Transition(s, e).0);
    var after := Handle(s, e).0.providers;
    assert after[id].InCooldown?;
    AwakeShrinks(s.providers, after);
  }

  lemma RunAppend(run: seq<System>, labels: seq<Label>, plan: Plan, n: nat, initialTx: bool, l: Label)
    requires IsRun(run, labels, plan, n, initialTx) && Enabled(run[|labels|], l) && IdsInRange(run[|labels|])
    ensures IsRun(run + [Apply(run[|labels|], l)], labels + [l], plan, n, initialTx)
  {
    var run', labels' := run + [Apply(run[|labels|], l)], labels + [l];
    forall t | 0 <= t < |labels'|
      ensures Enabled(run'[t], labels'[t]) && IdsInRange(run'[t]) && run'[t + 1] == Apply(run'[t], labels'[t])
    {
      if t < |labels| {
        assert run'[t] == run[t] && run'[t + 1] == run[t + 1] && labels'[t] == labels[t];
      }
    }
  }

  /** Failing whatever is in flight, one request after the other, ends with an error. */
  lemma {:induction false} FailOn(run: seq<System>, labels: seq<Label>, plan: Plan, n: nat, s: Symbol)
      returns (run': seq<System>, labels': seq<Label>)
    requires n > 0 && IsRun(run, labels, plan, n, true) && Capable(plan, n - 1, s)
    requires var sys := run[|labels|]; !sys.returned && sys.sup.phase.Startup? && LastIsReady(plan, sys.sup.providers)
    ensures IsRun(run', labels', plan, n, true) && labels' != [] && AnswersError(run'[|labels'| - 1], run'[|labels'|])
    decreases Awake(run[|labels|].sup.providers)
  {
    var t, sys := |labels|, run[|labels|];
    RunInv(run, labels, plan, n, true, t);
    RunShape(run, labels, plan, n, true, t);
    RunIdsInRange(run, labels, plan, n, true, t);
    var x := SomeoneIsAsked(sys, s);
    var l := StartFailed(x, "");
    RunAppend(run, labels, plan, n, true, l);
    run', labels' := run + [Apply(sys, l)], labels + [l];
    StartupFailsExactly(run', labels', plan, n, true, t);
    if sys.inFlight[x].id + 1 < n {
      OtherFailure(sys.sup, sys.inFlight[x].id, "");
      StartFailedKeepsInv(sys, x, "");
      ApplyKeepsPlan(sys, l);
      run', labels' := FailOn(run', labels', plan, n, s);
    }
  }

  /** Some run of the driver answers its caller with an error. */
  ghost predicate CanFail(plan: Plan, n: nat) {
    exists run, labels :: FailsAtEnd(run, labels, plan, n)
  }

  ghost predicate FailsAtEnd(run: seq<System>, labels: seq<Label>, plan: Plan, n: nat) {
    IsRun(run, labels, plan, n, true) && labels != [] && AnswersError(run[|labels| - 1], run[|labels|])
  }

  /** Startup can fail iff the last provider of the chain can serve some required symbol. */
  lemma CanFailIff(plan: Plan, n: nat)
    requires n > 0
    ensures CanFail(plan, n) <==> !CapableOfNothing(plan, n - 1)
  {
    if CanFail(plan, n) {
      var run, labels :| FailsAtEnd(run, labels, plan, n);
      if CapableOfNothing(plan, n - 1) {
        NeverFails(run, labels, plan, n, true, |labels| - 1);
      }
    }
    var last := n - 1;
    if s :| Capable(plan, last, s) {
      CapableCanFail(plan, n, s);
    }
  }

  lemma CapableCanFail(plan: Plan, n: nat, s: Symbol)
    requires n > 0 && Capable(plan, n - 1, s)
    ensures CanFail(plan, n)
  {
    var sys := Initial(plan, n, true);
    InitialInv(plan, n, true);
    InitialPhase(plan, n);
    InitiallyReady(plan, n);
    assert IsRun([sys], [], plan, n, true);
    var run, labels := FailOn([sys], [], plan, n, s);
    assert FailsAtEnd(run, labels, plan, n);
  }

  lemma InitiallyReady(plan: Plan, n: nat)
    requires n > 0
    ensures LastIsReady(plan, Initial(plan, n, true).sup.providers)
  {
    var idle := Unstarted(plan, n, true).sup.providers;
    InitialProviders(plan, n, true);
    ScanQuiesces(plan, idle, 0);
  }
}

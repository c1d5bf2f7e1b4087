/** The streaming supervisor as the object that its driver updates, proved against SupervisorSpec. */
module Supervisors {
  import opened Wrappers
  import opened Market
  import opened SupervisorSpec

  class Supervisor {
    const plan: Plan
    var providers: seq<ProviderState>
    var startIndex: nat
    var scanCursor: nat
    var roundExhausted: bool
    var backoffMs: nat
    var attempted: bool
    var phase: Phase

    function Value(): State
      reads this
    {
      State(plan, providers, startIndex, scanCursor, roundExhausted, backoffMs, attempted, phase)
    }

    constructor (plan: Plan, n: nat, initialTx: bool)
      ensures Value() == State(plan, seq(n, _ => Idle), 0, 0, false, plan.minBackoffMs, false, Startup(initialTx, []))
    {
      this.plan := plan;
      providers := seq(n, _ => Idle);
      startIndex, scanCursor, roundExhausted := 0, 0, false;
      backoffMs := plan.minBackoffMs;
      attempted := false;
      phase := Startup(initialTx, []);
    }

    method Handle(event: Event) returns (actions: seq<Action>)
      requires ValidEvent(Value(), event)
      modifies this
      ensures (Value(), actions) == SupervisorSpec.Handle(old(Value()), event)
    {
      actions := TransitionForEvent(event);
      if ShouldAttemptStarts(Value()) {
        var reqs := ComputeNeededStarts();
        if reqs != [] {
          attempted := true;
        }
        actions := actions + reqs;
      }
    }

    method TransitionForEvent(event: Event) returns (actions: seq<Action>)
      requires ValidEvent(Value(), event)
      modifies this
      ensures (Value(), actions) == Transition(old(Value()), event)
    {
      // The phase is taken out of the state, which reads Running until a new one is stored.
      var prev := phase;
      phase := Running;
      match event
      case ProviderStartSucceeded(id, symbols) =>
        match prev {
          case Startup(initialTx, _) =>
            actions := HandleProviderActivated(id, symbols);
            if initialTx {
              actions := [NotifyInitial(Ok(()))] + actions;
            }
            phase := Running;
            assert actions == Transition(old(Value()), event).1;
          case Running =>
            actions := HandleProviderActivated(id, symbols);
          case _ =>
            actions := [];
        }
      case ProviderStartFailed(id, error) =>
        match prev {
          case Startup(initialTx, errors) =>
            actions := HandleStartupFailure(id, error, initialTx, errors);
          case Running =>
            AdvanceScanCursorForFailure(id);
            actions := [];
          case _ =>
            actions := [];
        }
      case SessionEnded(id, _) =>
        providers := providers[id := InCooldown];
        phase := prev;
        actions := [];
      case BackoffTick =>
        actions := HandleBackoffTick(prev);
      case Shutdown | DownstreamClosed =>
        phase := ShuttingDown;
        actions := [StopAll, AwaitAll];
    }

    method ComputeNeededStarts() returns (actions: seq<Action>)
      modifies this`providers
      ensures (providers, actions) == SupervisorSpec.ComputeNeededStarts(old(Value()))
    {
      actions := [];
      var len := |providers|;
      if len == 0 || roundExhausted {
        return;
      }
      var i: nat := scanCursor % len;
      var start: nat := startIndex % len;
      var first := true;
      ghost var left := Visits(i, start, len);
      ghost var goal := Scan(plan, providers, i, left);
      assert [] + goal.1 == goal.1;
      while true
        invariant i < len == |providers| && start < len
        invariant left >= 1 && (first ==> left >= 2 && left == Visits(i, start, len))
        invariant !first ==> left == Distance(i, start, len) + 1
        invariant goal.0 == Scan(plan, providers, i, left).0
        invariant goal.1 == actions + Scan(plan, providers, i, left).1
        decreases left
      {
        ScanStep(plan, providers, i, left, actions);
        var request := VisitProvider(i);
        actions := actions + request;
        if !first && i == start {
          break;
        }
        first := false;
        i := Next(i, len);
        left := left - 1;
      }
    }

    method VisitProvider(i: nat) returns (request: seq<Action>)
      requires i < |providers|
      modifies this`providers
      ensures (providers, request) == Visit(plan, old(providers), i)
    {
      request := [];
      if IsIdle(providers[i]) && CanStream(plan, i) {
        var instruments := NeededInstruments(plan, providers, i);
        if instruments != [] {
          providers := providers[i := Connecting(SymbolsOf(instruments))];
          request := [RequestStart(i, instruments)];
        }
      }
    }

    static lemma ScanStep(plan: Plan, ps: seq<ProviderState>, i: nat, k: nat, soFar: seq<Action>)
      requires i < |ps| && k > 0
      ensures var (p1, a1) := Visit(plan, ps, i);
        var rest := Scan(plan, p1, Next(i, |ps|), k - 1);
        && Scan(plan, ps, i, k).0 == rest.0
        && soFar + Scan(plan, ps, i, k).1 == soFar + a1 + rest.1
        && soFar + [] == soFar
        && (k == 1 ==> rest == (p1, []) && soFar + a1 + [] == soFar + a1)
    {
    }

    method ComputeLowerPriorityOverlaps(higher: nat, symbols: seq<Symbol>) returns (toPreempt: seq<nat>)
      ensures toPreempt == LowerPriorityOverlaps(providers, higher, symbols)
    {
      toPreempt := [];
      var j := higher + 1;
      while j < |providers|
        invariant toPreempt + ActiveOverlapsFrom(providers, j, symbols) ==
                  LowerPriorityOverlaps(providers, higher, symbols)
      {
        if providers[j].Active? && Overlap(providers[j].symbols, symbols) {
          toPreempt := toPreempt + [j];
        }
        j := j + 1;
      }
    }

    method HandleProviderActivated(id: nat, symbols: seq<Symbol>) returns (actions: seq<Action>)
      requires id < |providers|
      modifies this
      ensures (Value(), actions) == ProviderActivated(old(Value()), id, symbols)
    {
      var fromCooldown := providers[id].IdleFromCooldown?;
      providers := providers[id := Active(symbols)];
      if fromCooldown {
        backoffMs := plan.minBackoffMs;
      }
      startIndex := Next(id, |providers|);
      scanCursor := startIndex;
      roundExhausted := false;
      actions := [];
      var lower := ComputeLowerPriorityOverlaps(id, symbols);
      if lower != [] {
        actions := actions + [PreemptSessions(lower)];
      }
      actions := actions + [ScheduleBackoffTick(backoffMs)];
      assert actions == ProviderActivated(old(Value()), id, symbols).1;
    }

    method AdvanceScanCursorForFailure(id: nat)
      requires id < |providers|
      modifies this
      ensures Value() == SupervisorSpec.AdvanceScanCursorForFailure(old(Value()), id)
    {
      providers := providers[id := InCooldown];
      var next := Next(id, |providers|);
      scanCursor := next;
      if next == startIndex {
        roundExhausted := true;
      }
    }

    method HandleStartupFailure(id: nat, error: Error, initialTx: bool, errors: seq<Error>)
        returns (actions: seq<Action>)
      requires id < |providers|
      modifies this
      ensures (Value(), actions) == StartupFailure(old(Value()), id, error, initialTx, errors)
    {
      var all := errors + [error];
      AdvanceScanCursorForFailure(id);
      if !HasAnyActive(providers) && roundExhausted && initialTx {
        phase := Terminated;
        return [NotifyInitial(Err(all))];
      }
      phase := Startup(initialTx, all);
      actions := [];
    }

    method HandleBackoffTick(prev: Phase) returns (actions: seq<Action>)
      modifies this
      ensures (Value(), actions) == SupervisorSpec.HandleBackoffTick(old(Value()).(phase := prev))
    {
      var i := 0;
      while i < |providers|
        invariant i <= |providers| == |old(providers)|
        invariant forall j | 0 <= j < |providers| ::
          providers[j] == if j < i then ClearCooldown(old(providers)[j]) else old(providers)[j]
        modifies this`providers
      {
        if providers[i].InCooldown? {
          providers := providers[i := IdleFromCooldown];
        }
        i := i + 1;
      }
      assert providers == ClearCooldowns(old(providers));
      ClearingKeepsActive(old(providers));
      if attempted {
        if HasAnyActive(providers) {
          IncreaseBackoff();
        } else {
          if roundExhausted && prev.Startup? && prev.initialTx {
            phase := Terminated;
            return [NotifyInitial(Err(prev.errors))];
          }
          IncreaseBackoff();
          startIndex := 0;
        }
      }
      attempted := false;
      scanCursor := startIndex;
      roundExhausted := false;
      phase := prev;
      actions := [ScheduleBackoffTick(backoffMs)];
    }

    static lemma ClearingKeepsActive(ps: seq<ProviderState>)
      ensures HasAnyActive(ClearCooldowns(ps)) <==> HasAnyActive(ps)
    {
      var cleared := ClearCooldowns(ps);
      assert forall i | 0 <= i < |ps| :: cleared[i].Active? <==> ps[i].Active?;
    }

    method IncreaseBackoff()
      modifies this`backoffMs
      ensures backoffMs == IncreasedBackoff(old(backoffMs), plan.factor, plan.maxBackoffMs)
    {
      backoffMs := Min(Min(backoffMs * plan.factor, U64_MAX), plan.maxBackoffMs);
    }
  }
}

/** The driver of a streaming supervisor as an event loop over mutable state, proved against ControllerSpec. */
module Controllers {
  import opened Wrappers
  import opened Market
  import opened SupervisorSpec
  import opened ControllerSpec
  import opened Supervisors

  class Controller {
    const supervisor: Supervisor
    var inFlight: seq<Request>
    var sessionTasks: map<nat, Session>
    var backoffTimer: Option<nat>
    var downstreamOpen: bool
    var returned: bool
    var answers: seq<Result<(), seq<Error>>>
    ghost var clock: nat
    ghost var lastRequest: seq<nat>
    ghost var lastActivation: seq<nat>

    ghost function Value(): System
      reads this, supervisor
    {
      System(supervisor.Value(), inFlight, sessionTasks, backoffTimer, downstreamOpen, returned, answers,
             clock, lastRequest, lastActivation)
    }

    constructor (plan: Plan, n: nat, initialTx: bool)
      ensures fresh(supervisor)
      ensures Value() == Initial(plan, n, initialTx)
    {
      supervisor := new Supervisor(plan, n, initialTx);
      inFlight, sessionTasks, backoffTimer := [], map[], Some(plan.minBackoffMs);
      downstreamOpen, returned, answers := true, false, [];
      clock, lastRequest, lastActivation := 1, seq(n, _ => 0), seq(n, _ => 0);
      new;
      if n == 0 {
        answers := if initialTx then [Err([])] else [];
        returned := true;
      } else if ShouldAttemptStarts(supervisor.Value()) {
        var actions := supervisor.ComputeNeededStarts();
        Interpret(actions);
      }
    }

    /** One pass of the event loop: wait for an outcome, hand it to the supervisor, carry out its actions. */
    method Step(l: Label)
      requires Enabled(Value(), l) && IdsInRange(Value())
      modifies this, supervisor
      ensures Value() == Apply(old(Value()), l)
    {
      var event := None;
      match l {
        case StartOk(x) =>
          var r := inFlight[x];
          inFlight := inFlight[..x] + inFlight[x + 1..];
          sessionTasks := sessionTasks[r.id := Session(r.symbols, Live, false)];
          lastActivation := SetAt(lastActivation, r.id, clock);
          clock := clock + 1;
          event := Some(ProviderStartSucceeded(r.id, r.symbols));
        case StartFailed(x, error) =>
          var r := inFlight[x];
          inFlight := inFlight[..x] + inFlight[x + 1..];
          event := Some(ProviderStartFailed(r.id, error));
        case TaskReportsEnd(id) =>
          sessionTasks := sessionTasks[id := sessionTasks[id].(status := EndQueued)];
        case TaskEndsSilently(id) =>
          sessionTasks := sessionTasks[id := sessionTasks[id].(status := EndedSilently)];
        case EndReceived(id) =>
          event := Some(SessionEnded(id, sessionTasks[id].symbols));
          sessionTasks := sessionTasks[id := sessionTasks[id].(status := Finished)];
        case TimerFires =>
          backoffTimer := None;
          event := Some(BackoffTick);
        case DownstreamDrops =>
          downstreamOpen := false;
        case ClosedNoticed =>
          event := Some(DownstreamClosed);
        case StopRequested =>
          event := Some(Shutdown);
      }
      assert Value() == Prepared(old(Value()), l) && event == EventOf(old(Value()), l);
      if event.Some? {
        var actions := supervisor.Handle(event.value);
        Interpret(actions);
      }
    }

    method Interpret(actions: seq<Action>)
      requires !returned
      modifies this
      ensures Value() == RunActions(old(Value()), actions)
    {
      var i := 0;
      while i < |actions|
        invariant i <= |actions| && !returned
        invariant RunActions(Value(), actions[i..]) == RunActions(old(Value()), actions)
      {
        ghost var before := Value();
        assert actions[i..][0] == actions[i] && actions[i..][1..] == actions[i + 1..];
        match actions[i] {
          case RequestStart(id, instruments) =>
            inFlight := inFlight + [Request(id, SymbolsOf(instruments))];
            lastRequest := SetAt(lastRequest, id, clock);
            clock := clock + 1;
          case StopAll =>
            sessionTasks := map id | id in sessionTasks :: sessionTasks[id].(stopTold := true);
            assert sessionTasks == ToldToStop(before.sessions, before.sessions.Keys);
          case AwaitAll =>
            sessionTasks := map[];
            returned := true;
            return;
          case NotifyInitial(result) =>
            answers := answers + [result];
            if supervisor.phase.Terminated? {
              returned := true;
              return;
            }
          case ScheduleBackoffTick(delayMs) =>
            backoffTimer := Some(delayMs);
          case PreemptSessions(ids) =>
            PreemptAll(ids);
        }
        assert Value() == Perform(before, actions[i]);
        i := i + 1;
      }
    }

    method PreemptAll(ids: seq<nat>)
      modifies this`sessionTasks
      ensures sessionTasks == ToldToStop(old(sessionTasks), set id | id in ids)
    {
      var i := 0;
      while i < |ids|
        invariant i <= |ids|
        invariant sessionTasks == ToldToStop(old(sessionTasks), set id | id in ids[..i])
      {
        if ids[i] in sessionTasks {
          sessionTasks := sessionTasks[ids[i] := sessionTasks[ids[i]].(stopTold := true)];
        }
        assert ids[..i + 1] == ids[..i] + [ids[i]];
        i := i + 1;
      }
      assert ids[..i] == ids;
    }
  }
}

/**
 * The supervisor together with its driver: start requests in flight, session tasks and a timer.
 * Provider calls and session tasks run concurrently; here each of their outcomes is one atomic step.
 */
module ControllerSpec {
  import opened Wrappers
  import opened Market
  import opened SupervisorSpec

  /** A start request whose outcome the driver has not received yet. */
  datatype Request = Request(id: nat, symbols: seq<Symbol>)

  /**
   * A session task runs, then ends. It normally reports its end, which the driver receives later;
   * a task that finds its downstream gone ends without a report.
   */
  datatype Status = Live | EndQueued | EndedSilently | Finished

  datatype Session = Session(symbols: seq<Symbol>, status: Status, stopTold: bool)

  /**
   * `clock`, `lastRequest` and `lastActivation` are history: they number, per provider, its latest
   * start request and its latest activation.
   */
  datatype System = System(
    sup: State,
    inFlight: seq<Request>,
    sessions: map<nat, Session>,
    timer: Option<nat>,
    downstreamOpen: bool,
    returned: bool,
    answers: seq<Result<(), seq<Error>>>,
    clock: nat,
    lastRequest: seq<nat>,
    lastActivation: seq<nat>)

  function SetAt(xs: seq<nat>, i: nat, v: nat): seq<nat> {
    if i < |xs| then xs[i := v] else xs
  }

  // ---- The action interpreter -------------------------------------------------------------

  function ToldToStop(sessions: map<nat, Session>, ids: set<nat>): map<nat, Session> {
    map i | i in sessions :: if i in ids then sessions[i].(stopTold := true) else sessions[i]
  }

  function Perform(sys: System, a: Action): System {
    match a
    case RequestStart(id, insts) =>
      sys.(inFlight := sys.inFlight + [Request(id, SymbolsOf(insts))],
           lastRequest := SetAt(sys.lastRequest, id, sys.clock),
           clock := sys.clock + 1)
    case StopAll => sys.(sessions := ToldToStop(sys.sessions, sys.sessions.Keys))
    case AwaitAll => sys.(sessions := map[], returned := true)
    case NotifyInitial(result) => sys.(answers := sys.answers + [result], returned := sys.sup.phase.Terminated?)
    case ScheduleBackoffTick(delay) => sys.(timer := Some(delay))
    case PreemptSessions(ids) => sys.(sessions := ToldToStop(sys.sessions, set i | i in ids))
  }

  /** The actions in order, until one of them makes the driver return. */
  function RunActions(sys: System, actions: seq<Action>): System
    decreases |actions|
  {
    if actions == [] || sys.returned then sys
    else RunActions(Perform(sys, actions[0]), actions[1..])
  }

  function Dispatch(sys: System, e: Event): System
    requires ValidEvent(sys.sup, e)
  {
    var (sup, actions) := Handle(sys.sup, e);
    RunActions(sys.(sup := sup), actions)
  }

  // ---- Steps ------------------------------------------------------------------------------

  /** `StartOk(x)` and `StartFailed(x, _)` are outcomes of the x-th request in flight. */
  datatype Label =
    | StartOk(x: nat)
    | StartFailed(x: nat, error: Error)
    | TaskReportsEnd(id: nat)
    | TaskEndsSilently(id: nat)
    | EndReceived(id: nat)
    | TimerFires
    | DownstreamDrops
    | ClosedNoticed
    | StopRequested

  /** Every index the driver is handed names one of its providers. */
  predicate IdsInRange(sys: System) {
    && (forall x | 0 <= x < |sys.inFlight| :: sys.inFlight[x].id < |sys.sup.providers|)
    && (forall i | i in sys.sessions :: i < |sys.sup.providers|)
  }

  predicate Enabled(sys: System, l: Label) {
    && !sys.returned
    && match l
       case StartOk(x) => x < |sys.inFlight|
       case StartFailed(x, _) => x < |sys.inFlight|
       case TaskReportsEnd(id) => id in sys.sessions && sys.sessions[id].status == Live
       case TaskEndsSilently(id) => id in sys.sessions && sys.sessions[id].status == Live && !sys.downstreamOpen
       case EndReceived(id) => id in sys.sessions && sys.sessions[id].status == EndQueued
       case TimerFires => sys.timer.Some?
       case DownstreamDrops => sys.downstreamOpen
       case ClosedNoticed => !sys.downstreamOpen
       case StopRequested => true
  }

  function WithStatus(sys: System, id: nat, status: Status): System
    requires id in sys.sessions
  {
    sys.(sessions := sys.sessions[id := sys.sessions[id].(status := status)])
  }

  function Without(rs: seq<Request>, x: nat): seq<Request>
    requires x < |rs|
  {
    rs[..x] + rs[x + 1..]
  }

  function Spawned(sys: System, x: nat): System
    requires x < |sys.inFlight|
  {
    var r := sys.inFlight[x];
    sys.(inFlight := Without(sys.inFlight, x),
         sessions := sys.sessions[r.id := Session(r.symbols, Live, false)],
         lastActivation := SetAt(sys.lastActivation, r.id, sys.clock),
         clock := sys.clock + 1)
  }

  /** What the driver, a task or the environment has done when the supervisor is handed the event of the step. */
  function Prepared(sys: System, l: Label): System
    requires Enabled(sys, l)
  {
    match l
    case StartOk(x) => Spawned(sys, x)
    case StartFailed(x, _) => sys.(inFlight := Without(sys.inFlight, x))
    case TaskReportsEnd(id) => WithStatus(sys, id, EndQueued)
    case TaskEndsSilently(id) => WithStatus(sys, id, EndedSilently)
    case EndReceived(id) => WithStatus(sys, id, Finished)
    case TimerFires => sys.(timer := None)
    case DownstreamDrops => sys.(downstreamOpen := false)
    case ClosedNoticed => sys
    case StopRequested => sys
  }

  function EventOf(sys: System, l: Label): Option<Event>
    requires Enabled(sys, l)
  {
    match l
    case StartOk(x) => Some(ProviderStartSucceeded(sys.inFlight[x].id, sys.inFlight[x].symbols))
    case StartFailed(x, error) => Some(ProviderStartFailed(sys.inFlight[x].id, error))
    case EndReceived(id) => Some(SessionEnded(id, sys.sessions[id].symbols))
    case TimerFires => Some(BackoffTick)
    case ClosedNoticed => Some(DownstreamClosed)
    case StopRequested => Some(Shutdown)
    case _ => None
  }

  function Apply(sys: System, l: Label): System
    requires Enabled(sys, l) && IdsInRange(sys)
  {
    match EventOf(sys, l)
    case None => Prepared(sys, l)
    case Some(e) => Dispatch(Prepared(sys, l), e)
  }

  // ---- Runs -------------------------------------------------------------------------------

  /** The supervisor before its first start attempt: every provider idle, nothing tried. */
  function Fresh(plan: Plan, n: nat, initialTx: bool): State {
    State(plan, seq(n, _ => Idle), 0, 0, false, plan.minBackoffMs, false, Startup(initialTx, []))
  }

  function Unstarted(plan: Plan, n: nat, initialTx: bool): System {
    System(Fresh(plan, n, initialTx), [], map[], Some(plan.minBackoffMs), true, false, [], 1, seq(n, _ => 0),
           seq(n, _ => 0))
  }

  /** Without providers the driver answers at once and returns; otherwise it issues the first starts. */
  function Initial(plan: Plan, n: nat, initialTx: bool): System {
    var sys := Unstarted(plan, n, initialTx);
    if n == 0 then sys.(answers := if initialTx then [Err([])] else [], returned := true)
    else if ShouldAttemptStarts(sys.sup) then
      var (ps, reqs) := ComputeNeededStarts(sys.sup);
      RunActions(sys.(sup := sys.sup.(providers := ps)), reqs)
    else sys
  }

  /** `run` starts initially, and its t-th step is the enabled step `labels[t]`. */
  ghost predicate IsRun(run: seq<System>, labels: seq<Label>, plan: Plan, n: nat, initialTx: bool) {
    && |run| == |labels| + 1 && run[0] == Initial(plan, n, initialTx)
    && forall t | 0 <= t < |labels| ::
         Enabled(run[t], labels[t]) && IdsInRange(run[t]) && run[t + 1] == Apply(run[t], labels[t])
  }
}

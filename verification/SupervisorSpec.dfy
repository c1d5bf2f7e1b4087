/** The streaming supervisor as a state machine on values: one function per transition. */
module SupervisorSpec {
  import opened Wrappers
  import opened Market

  type Error = string

  datatype ProviderState =
    | Idle
    | IdleFromCooldown
    | Connecting(symbols: seq<Symbol>)
    | Active(symbols: seq<Symbol>)
    | InCooldown

  /** `initialTx` says whether the sender for the initial result is still unused. */
  datatype Phase = Startup(initialTx: bool, errors: seq<Error>) | Running | ShuttingDown | Terminated

  datatype Event =
    | ProviderStartSucceeded(id: nat, symbols: seq<Symbol>)
    | ProviderStartFailed(id: nat, error: Error)
    | SessionEnded(id: nat, symbols: seq<Symbol>)
    | BackoffTick
    | DownstreamClosed
    | Shutdown

  datatype Action =
    | RequestStart(id: nat, instruments: seq<Instrument>)
    | StopAll
    | AwaitAll
    | NotifyInitial(result: Result<(), seq<Error>>)
    | ScheduleBackoffTick(delayMs: nat)
    | PreemptSessions(ids: seq<nat>)

  /** What a supervisor is given at the start and never changes. */
  datatype Plan = Plan(
    instruments: seq<seq<Instrument>>,
    allow: seq<set<Symbol>>,
    required: set<Symbol>,
    canStream: seq<bool>,
    minBackoffMs: nat,
    maxBackoffMs: nat,
    factor: nat)

  datatype State = State(
    plan: Plan,
    providers: seq<ProviderState>,
    startIndex: nat,
    scanCursor: nat,
    roundExhausted: bool,
    backoffMs: nat,
    attempted: bool,
    phase: Phase)

  // ---- Coverage queries -------------------------------------------------------------------

  predicate IsIdle(p: ProviderState) {
    p.Idle? || p.IdleFromCooldown?
  }

  predicate Holds(p: ProviderState, s: Symbol) {
    (p.Connecting? || p.Active?) && s in p.symbols
  }

  predicate HasSymbolBefore(ps: seq<ProviderState>, id: nat, s: Symbol) {
    exists j :: 0 <= j < |ps| && j < id && Holds(ps[j], s)
  }

  function CoverageCount(ps: seq<ProviderState>, s: Symbol): (n: nat)
  {
    if ps == [] then 0 else (if Holds(ps[0], s) then 1 else 0) + CoverageCount(ps[1..], s)
  }

  predicate CanStream(plan: Plan, id: nat) {
    id < |plan.canStream| && plan.canStream[id]
  }

  predicate ShouldInclude(plan: Plan, ps: seq<ProviderState>, id: nat, inst: Instrument, allow: set<Symbol>) {
    && inst.Security?
    && inst.symbol in allow
    && inst.symbol in plan.required
    && (CoverageCount(ps, inst.symbol) == 0 || !HasSymbolBefore(ps, id, inst.symbol))
  }

  function IncludedOf(plan: Plan, ps: seq<ProviderState>, id: nat, insts: seq<Instrument>,
                      allow: set<Symbol>): seq<Instrument>
  {
    if insts == [] then []
    else
      (if ShouldInclude(plan, ps, id, insts[0], allow) then [insts[0]] else [])
      + IncludedOf(plan, ps, id, insts[1..], allow)
  }

  function NeededInstruments(plan: Plan, ps: seq<ProviderState>, id: nat): seq<Instrument> {
    if id < |plan.allow| && id < |plan.instruments|
    then IncludedOf(plan, ps, id, plan.instruments[id], plan.allow[id])
    else []
  }

  predicate HasIdleProviderWithWork(plan: Plan, ps: seq<ProviderState>) {
    exists i :: 0 <= i < |ps| && IsIdle(ps[i]) && CanStream(plan, i) && NeededInstruments(plan, ps, i) != []
  }

  predicate ShouldAttemptStarts(s: State) {
    !s.roundExhausted && HasIdleProviderWithWork(s.plan, s.providers)
  }

  // ---- The start scan ---------------------------------------------------------------------

  /** One visit of the scan: an idle streamable provider with work becomes Connecting. */
  function Visit(plan: Plan, ps: seq<ProviderState>, i: nat): (seq<ProviderState>, seq<Action>)
    requires i < |ps|
  {
    var insts := NeededInstruments(plan, ps, i);
    if IsIdle(ps[i]) && CanStream(plan, i) && insts != []
    then (ps[i := Connecting(SymbolsOf(insts))], [RequestStart(i, insts)])
    else (ps, [])
  }

  /** The provider after `i` in cyclic order. */
  function Next(i: nat, n: nat): (j: nat)
    requires i < n
    ensures j == if i + 1 == n then 0 else i + 1
  {
    (i + 1) % n
  }

  /** `k` visits in cyclic order, starting with provider `i`. */
  function Scan(plan: Plan, ps: seq<ProviderState>, i: nat, k: nat): (r: (seq<ProviderState>, seq<Action>))
    requires i < |ps|
    ensures |r.0| == |ps|
    decreases k
  {
    if k == 0 then (ps, [])
    else
      var (p1, a1) := Visit(plan, ps, i);
      var (p2, a2) := Scan(plan, p1, Next(i, |ps|), k - 1);
      (p2, a1 + a2)
  }

  /** The number of visits from `cursor` until the scan is back at `start`, counting both ends. */
  function Visits(cursor: nat, start: nat, n: nat): (k: nat)
    requires cursor < n && start < n
    ensures 2 <= k <= n + 1
  {
    if cursor < start then start - cursor + 1 else start + n - cursor + 1
  }

  /** How many steps a cyclic scan of `n` providers takes from `i` to `v`. */
  ghost function Distance(i: nat, v: nat, n: nat): nat
    requires i < n && v < n
  {
    if v >= i then v - i else v + n - i
  }

  function ComputeNeededStarts(s: State): (seq<ProviderState>, seq<Action>) {
    var n := |s.providers|;
    if n == 0 || s.roundExhausted then (s.providers, [])
    else Scan(s.plan, s.providers, s.scanCursor % n, Visits(s.scanCursor % n, s.startIndex % n, n))
  }

  // ---- Transitions ------------------------------------------------------------------------

  predicate HasAnyActive(ps: seq<ProviderState>) {
    exists i :: 0 <= i < |ps| && ps[i].Active?
  }

  predicate Overlap(a: seq<Symbol>, b: seq<Symbol>) {
    exists s :: s in a && s in b
  }

  /** The Active providers from index `j` on whose symbols overlap `symbols`, in order. */
  function ActiveOverlapsFrom(ps: seq<ProviderState>, j: nat, symbols: seq<Symbol>): seq<nat>
    decreases |ps| - j
  {
    if j >= |ps| then []
    else
      (if ps[j].Active? && Overlap(ps[j].symbols, symbols) then [j] else [])
      + ActiveOverlapsFrom(ps, j + 1, symbols)
  }

  function LowerPriorityOverlaps(ps: seq<ProviderState>, higher: nat, symbols: seq<Symbol>): seq<nat> {
    ActiveOverlapsFrom(ps, higher + 1, symbols)
  }

  function ProviderActivated(s: State, id: nat, symbols: seq<Symbol>): (State, seq<Action>)
    requires id < |s.providers|
  {
    var ps := s.providers[id := Active(symbols)];
    var backoff := if s.providers[id].IdleFromCooldown? then s.plan.minBackoffMs else s.backoffMs;
    var start := Next(id, |ps|);
    var lower := LowerPriorityOverlaps(ps, id, symbols);
    (s.(providers := ps, backoffMs := backoff, startIndex := start, scanCursor := start, roundExhausted := false),
     (if lower != [] then [PreemptSessions(lower)] else []) + [ScheduleBackoffTick(backoff)])
  }

  function AdvanceScanCursorForFailure(s: State, id: nat): State
    requires id < |s.providers|
  {
    var next := Next(id, |s.providers|);
    s.(providers := s.providers[id := InCooldown],
       scanCursor := next,
       roundExhausted := s.roundExhausted || next == s.startIndex)
  }

  function StartupFailure(s: State, id: nat, error: Error, initialTx: bool, errors: seq<Error>): (State, seq<Action>)
    requires id < |s.providers|
  {
    var all := errors + [error];
    var f := AdvanceScanCursorForFailure(s, id);
    if !HasAnyActive(f.providers) && f.roundExhausted && initialTx
    then (f.(phase := Terminated), [NotifyInitial(Err(all))])
    else (f.(phase := Startup(initialTx, all)), [])
  }

  function ClearCooldown(p: ProviderState): ProviderState {
    if p.InCooldown? then IdleFromCooldown else p
  }

  function ClearCooldowns(ps: seq<ProviderState>): seq<ProviderState> {
    seq(|ps|, i requires 0 <= i < |ps| => ClearCooldown(ps[i]))
  }

  function Min(a: nat, b: nat): nat {
    if a <= b then a else b
  }

  /** Saturating u64 multiplication, then the cap. */
  function IncreasedBackoff(backoffMs: nat, factor: nat, maxBackoffMs: nat): nat {
    Min(Min(backoffMs * factor, U64_MAX), maxBackoffMs)
  }

  /** Whether a tick ends the startup instead of scheduling another round. */
  predicate TickTerminates(s: State) {
    s.attempted && !HasAnyActive(s.providers) && s.roundExhausted && s.phase.Startup? && s.phase.initialTx
  }

  function HandleBackoffTick(s: State): (State, seq<Action>) {
    var cleared := s.(providers := ClearCooldowns(s.providers));
    if TickTerminates(s) then (cleared.(phase := Terminated), [NotifyInitial(Err(s.phase.errors))])
    else
      var backoff := if s.attempted then IncreasedBackoff(s.backoffMs, s.plan.factor, s.plan.maxBackoffMs)
          else s.backoffMs;
      var start := if s.attempted && !HasAnyActive(s.providers) then 0 else s.startIndex;
      (cleared.(attempted := false, startIndex := start, scanCursor := start, roundExhausted := false,
                backoffMs := backoff),
       [ScheduleBackoffTick(backoff)])
  }

  predicate ValidEvent(s: State, e: Event) {
    e.ProviderStartSucceeded? || e.ProviderStartFailed? || e.SessionEnded? ==> e.id < |s.providers|
  }

  /** The event/phase table. The last case leaves the phase at Running, as the code does. */
  function Transition(s: State, e: Event): (State, seq<Action>)
    requires ValidEvent(s, e)
  {
    match e
    case SessionEnded(id, _) => (s.(providers := s.providers[id := InCooldown]), [])
    case BackoffTick => HandleBackoffTick(s)
    case Shutdown | DownstreamClosed => (s.(phase := ShuttingDown), [StopAll, AwaitAll])
    case ProviderStartSucceeded(id, symbols) =>
      if s.phase.Startup? then
        var (s1, a1) := ProviderActivated(s, id, symbols);
        (s1.(phase := Running), (if s.phase.initialTx then [NotifyInitial(Ok(()))] else []) + a1)
      else if s.phase.Running? then ProviderActivated(s, id, symbols)
      else (s.(phase := Running), [])
    case ProviderStartFailed(id, error) =>
      if s.phase.Startup? then StartupFailure(s, id, error, s.phase.initialTx, s.phase.errors)
      else if s.phase.Running? then (AdvanceScanCursorForFailure(s, id), [])
      else (s.(phase := Running), [])
  }

  function Handle(s: State, e: Event): (State, seq<Action>)
    requires ValidEvent(s, e)
  {
    var (s1, a1) := Transition(s, e);
    if ShouldAttemptStarts(s1) then
      var (ps, reqs) := ComputeNeededStarts(s1);
      (s1.(providers := ps, attempted := s1.attempted || reqs != []), a1 + reqs)
    else (s1, a1)
  }
}

/** What the supervisor's transitions guarantee, whatever state they start from. */
module SupervisorProps {
  import opened Wrappers
  import opened Market
  import opened SupervisorSpec

  // ---- Which symbols a provider needs -----------------------------------------------------

  /** Provider `id` may stream symbol `s`: it can stream, is allowed `s` and was assigned an instrument of it. */
  predicate Capable(plan: Plan, id: nat, s: Symbol) {
    && CanStream(plan, id)
    && id < |plan.allow| && id < |plan.instruments|
    && s in plan.allow[id] && s in plan.required && s in SymbolsOf(plan.instruments[id])
  }

  ghost predicate LowestCapable(plan: Plan, id: nat, s: Symbol) {
    Capable(plan, id, s) && forall j | 0 <= j < id :: !Capable(plan, j, s)
  }

  lemma {:induction false} CoverageCountPositive(ps: seq<ProviderState>, s: Symbol)
    ensures CoverageCount(ps, s) > 0 <==> exists i :: 0 <= i < |ps| && Holds(ps[i], s)
  {
    if ps != [] {
      CoverageCountPositive(ps[1..], s);
      if i :| 0 <= i < |ps| && Holds(ps[i], s) {
        if i > 0 {
          assert Holds(ps[1..][i - 1], s);
        }
      }
      if j :| 0 <= j < |ps[1..]| && Holds(ps[1..][j], s) {
        assert Holds(ps[j + 1], s);
      }
    }
  }

  /** The coverage test adds nothing: a symbol is included iff no provider of higher priority holds it. */
  lemma ShouldIncludeExact(plan: Plan, ps: seq<ProviderState>, id: nat, inst: Instrument, allow: set<Symbol>)
    ensures ShouldInclude(plan, ps, id, inst, allow) <==>
            inst.Security? && inst.symbol in allow && inst.symbol in plan.required &&
                !HasSymbolBefore(ps, id, inst.symbol)
  {
    if inst.Security? {
      CoverageCountPositive(ps, inst.symbol);
    }
  }

  lemma {:induction false} IncludedOfMembers(plan: Plan, ps: seq<ProviderState>, id: nat, insts: seq<Instrument>,
                                             allow: set<Symbol>)
    ensures forall inst :: inst in IncludedOf(plan, ps, id, insts, allow) <==>
            inst in insts && ShouldInclude(plan, ps, id, inst, allow)
  {
    if insts != [] {
      assert insts == [insts[0]] + insts[1..];
      IncludedOfMembers(plan, ps, id, insts[1..], allow);
    }
  }

  /**
   * A provider that can stream is asked for exactly the symbols it is capable of and no higher-priority provider holds.
   */
  lemma NeededExact(plan: Plan, ps: seq<ProviderState>, id: nat, s: Symbol)
    requires CanStream(plan, id)
    ensures s in SymbolsOf(NeededInstruments(plan, ps, id)) <==> Capable(plan, id, s) && !HasSymbolBefore(ps, id, s)
    ensures |SymbolsOf(NeededInstruments(plan, ps, id))| == |NeededInstruments(plan, ps, id)|
  {
    var needed := NeededInstruments(plan, ps, id);
    SymbolsOfMembers(needed, s);
    if id < |plan.allow| && id < |plan.instruments| {
      var insts, allow := plan.instruments[id], plan.allow[id];
      IncludedOfMembers(plan, ps, id, insts, allow);
      SymbolsOfMembers(insts, s);
      forall inst | inst in insts
        ensures ShouldInclude(plan, ps, id, inst, allow) <==>
                inst.Security? && inst.symbol in allow && inst.symbol in plan.required &&
                    !HasSymbolBefore(ps, id, inst.symbol)
      {
        ShouldIncludeExact(plan, ps, id, inst, allow);
      }
    }
  }

  // ---- The start scan ---------------------------------------------------------------------

  /** `after` differs from `before` only in idle providers that have become Connecting. */
  ghost predicate OnlyStarts(before: seq<ProviderState>, after: seq<ProviderState>) {
    |after| == |before| && forall i | 0 <= i < |before| ::
        after[i] == before[i] || (IsIdle(before[i]) && after[i].Connecting?)
  }

  ghost predicate HasWork(plan: Plan, ps: seq<ProviderState>, i: nat)
    requires i < |ps|
  {
    IsIdle(ps[i]) && CanStream(plan, i) && NeededInstruments(plan, ps, i) != []
  }

  lemma VisitFacts(plan: Plan, ps: seq<ProviderState>, i: nat)
    requires i < |ps|
    ensures OnlyStarts(ps, Visit(plan, ps, i).0)
    ensures !HasWork(plan, Visit(plan, ps, i).0, i)
  {
  }

  /** Provider `id` has something to do iff some symbol it is capable of is not held before it. */
  lemma NeedsSomething(plan: Plan, ps: seq<ProviderState>, id: nat)
    requires CanStream(plan, id)
    ensures NeededInstruments(plan, ps, id) != [] <==> exists s :: Capable(plan, id, s) && !HasSymbolBefore(ps, id, s)
  {
    var needed := NeededInstruments(plan, ps, id);
    NeededExact(plan, ps, id, "");
    if needed != [] {
      NeededExact(plan, ps, id, SymbolsOf(needed)[0]);
    }
    if s :| Capable(plan, id, s) && !HasSymbolBefore(ps, id, s) {
      NeededExact(plan, ps, id, s);
    }
  }

  lemma HoldersPersist(before: seq<ProviderState>, after: seq<ProviderState>, id: nat, s: Symbol)
    requires OnlyStarts(before, after) && HasSymbolBefore(before, id, s)
    ensures HasSymbolBefore(after, id, s)
  {
    var j :| 0 <= j < |before| && j < id && Holds(before[j], s);
    assert Holds(after[j], s);
  }

  lemma NoWorkPersists(plan: Plan, before: seq<ProviderState>, after: seq<ProviderState>, i: nat)
    requires i < |before| && OnlyStarts(before, after) && !HasWork(plan, before, i)
    ensures !HasWork(plan, after, i)
  {
    if CanStream(plan, i) {
      NeedsSomething(plan, before, i);
      NeedsSomething(plan, after, i);
      forall s | Capable(plan, i, s) && HasSymbolBefore(before, i, s)
        ensures HasSymbolBefore(after, i, s)
      {
        HoldersPersist(before, after, i, s);
      }
    }
  }

  lemma DistanceStep(i: nat, v: nat, n: nat)
    requires i < n && v < n && v != i
    ensures Next(i, n) < n && Distance(i, v, n) == Distance(Next(i, n), v, n) + 1
  {
  }

  lemma {:induction false} ScanOnlyStarts(plan: Plan, ps: seq<ProviderState>, i: nat, k: nat)
    requires i < |ps|
    ensures OnlyStarts(ps, Scan(plan, ps, i, k).0)
    decreases k
  {
    if k > 0 {
      var p1 := Visit(plan, ps, i).0;
      VisitFacts(plan, ps, i);
      ScanOnlyStarts(plan, p1, Next(i, |ps|), k - 1);
    }
  }

  /** Every visited provider is left without work. */
  lemma {:induction false} ScanLeavesNoWork(plan: Plan, ps: seq<ProviderState>, i: nat, k: nat, v: nat)
    requires i < |ps| && v < |ps| && Distance(i, v, |ps|) < k
    ensures !HasWork(plan, Scan(plan, ps, i, k).0, v)
    decreases k
  {
    var next := Next(i, |ps|);
    var p1 := Visit(plan, ps, i).0;
    var p2 := Scan(plan, p1, next, k - 1).0;
    assert p2 == Scan(plan, ps, i, k).0;
    if v == i {
      VisitFacts(plan, ps, i);
      ScanOnlyStarts(plan, p1, next, k - 1);
      NoWorkPersists(plan, p1, p2, i);
    } else {
      DistanceStep(i, v, |ps|);
      ScanLeavesNoWork(plan, p1, next, k - 1, v);
    }
  }

  /** A full round leaves no idle provider with work, from any cursor. */
  lemma FullScanQuiesces(plan: Plan, ps: seq<ProviderState>, i: nat, k: nat)
    requires i < |ps| <= k
    ensures !HasIdleProviderWithWork(plan, Scan(plan, ps, i, k).0)
  {
    var after := Scan(plan, ps, i, k).0;
    forall v | 0 <= v < |after|
      ensures !(IsIdle(after[v]) && CanStream(plan, v) && NeededInstruments(plan, after, v) != [])
    {
      ScanLeavesNoWork(plan, ps, i, k, v);
    }
  }

  /** `a` is a start request, issued for a provider that was idle and is now Connecting with the requested symbols. */
  ghost predicate IsStartOf(plan: Plan, before: seq<ProviderState>, after: seq<ProviderState>, a: Action) {
    && a.RequestStart? && a.id < |before| == |after|
    && IsIdle(before[a.id])
    && after[a.id] == Connecting(SymbolsOf(a.instruments))
    && a.instruments != []
    && forall s | s in SymbolsOf(a.instruments) :: Capable(plan, a.id, s)
  }

  /** Each action starts a different provider, and every provider that changed was started. */
  ghost predicate AreStartsOf(plan: Plan, before: seq<ProviderState>, after: seq<ProviderState>, actions: seq<Action>) {
    && OnlyStarts(before, after)
    && (forall x | 0 <= x < |actions| :: actions[x].RequestStart?)
    && (forall a | a in actions :: IsStartOf(plan, before, after, a))
    && (forall x, y | 0 <= x < y < |actions| :: actions[x].id != actions[y].id)
    && (forall v | 0 <= v < |before| && after[v] != before[v] :: exists a ::
        a in actions && a.RequestStart? && a.id == v)
  }

  lemma VisitStarts(plan: Plan, ps: seq<ProviderState>, i: nat)
    requires i < |ps|
    ensures AreStartsOf(plan, ps, Visit(plan, ps, i).0, Visit(plan, ps, i).1)
    ensures |Visit(plan, ps, i).1| <= 1
  {
    var (after, actions) := Visit(plan, ps, i);
    if actions != [] {
      forall s | s in SymbolsOf(actions[0].instruments) ensures Capable(plan, i, s) {
        NeededExact(plan, ps, i, s);
      }
      assert actions[0] in actions;
    }
  }

  lemma StartsCompose(plan: Plan, p0: seq<ProviderState>, p1: seq<ProviderState>, p2: seq<ProviderState>,
                      a1: seq<Action>, a2: seq<Action>)
    requires AreStartsOf(plan, p0, p1, a1) && AreStartsOf(plan, p1, p2, a2)
    ensures AreStartsOf(plan, p0, p2, a1 + a2)
  {
    var actions := a1 + a2;
    forall v | 0 <= v < |p0| && p2[v] != p0[v]
      ensures exists a :: a in actions && a.RequestStart? && a.id == v
    {
      var a :| (a in a1 || a in a2) && a.RequestStart? && a.id == v;
      assert a in actions;
    }
    forall x, y | 0 <= x < |a1| && 0 <= y < |a2|
      ensures a1[x].id != a2[y].id
    {
      assert IsStartOf(plan, p0, p1, a1[x]) && IsStartOf(plan, p1, p2, a2[y]);
    }
  }

  /** The scan asks each provider at most once, only for symbols it is capable of; whoever changed was asked. */
  lemma {:induction false} ScanRequests(plan: Plan, ps: seq<ProviderState>, i: nat, k: nat)
    requires i < |ps|
    ensures AreStartsOf(plan, ps, Scan(plan, ps, i, k).0, Scan(plan, ps, i, k).1)
    decreases k
  {
    if k > 0 {
      var (p1, a1) := Visit(plan, ps, i);
      var (p2, a2) := Scan(plan, p1, Next(i, |ps|), k - 1);
      VisitStarts(plan, ps, i);
      ScanRequests(plan, p1, Next(i, |ps|), k - 1);
      StartsCompose(plan, ps, p1, p2, a1, a2);
    }
  }

  /** The providers before `i` hold exactly the symbols they are the lowest capable provider of; the rest is idle. */
  ghost predicate Front(plan: Plan, ps: seq<ProviderState>, i: nat) {
    && (forall j, s | 0 <= j < |ps| :: Holds(ps[j], s) <==> j < i && LowestCapable(plan, j, s))
    && (forall j | 0 <= j < |ps| :: IsIdle(ps[j]) || ps[j].Connecting?)
    && (forall j | i <= j < |ps| :: IsIdle(ps[j]))
  }

  lemma FrontAdvances(plan: Plan, ps: seq<ProviderState>, i: nat)
    requires i < |ps| && Front(plan, ps, i)
    ensures Front(plan, Visit(plan, ps, i).0, i + 1)
  {
    var p1 := Visit(plan, ps, i).0;
    if CanStream(plan, i) {
      forall s ensures Holds(p1[i], s) <==> LowestCapable(plan, i, s) {
        NeededExact(plan, ps, i, s);
        if Capable(plan, i, s) && !LowestCapable(plan, i, s) {
          var j := LowestExists(plan, i, s);
        }
      }
    }
  }

  /** If some provider up to `i` is capable of `s`, one of them is the lowest. */
  lemma {:induction false} LowestExists(plan: Plan, i: nat, s: Symbol) returns (j: nat)
    requires Capable(plan, i, s)
    ensures j <= i && LowestCapable(plan, j, s)
    decreases i
  {
    j := i;
    if k :| 0 <= k < i && Capable(plan, k, s) {
      j := LowestExists(plan, k, s);
    }
  }

  lemma {:induction false} FrontScan(plan: Plan, ps: seq<ProviderState>, i: nat)
    requires i < |ps| && Front(plan, ps, i)
    ensures Front(plan, Scan(plan, ps, i, |ps| - i + 1).0, |ps|)
    decreases |ps| - i
  {
    var n := |ps|;
    var p1 := Visit(plan, ps, i).0;
    FrontAdvances(plan, ps, i);
    if i + 1 < n {
      FrontScan(plan, p1, i + 1);
    } else {
      // The scan visits provider 0 a second time; it has no work left.
      assert Next(i, n) == 0;
      if HasWork(plan, p1, 0) {
        NeededExact(plan, p1, 0, "");
        NeededExact(plan, p1, 0, SymbolsOf(NeededInstruments(plan, p1, 0))[0]);
        assert LowestCapable(plan, 0, SymbolsOf(NeededInstruments(plan, p1, 0))[0]);
        assert false;
      }
      assert Scan(plan, p1, 0, 1).0 == p1;
    }
  }

  /**
   * The first scan, with every provider idle, partitions the servable symbols:
   * each goes to the lowest-index provider capable of it and to no other.
   */
  lemma StartupScanPartitions(s: State)
    requires |s.providers| > 0 && !s.roundExhausted && s.scanCursor == s.startIndex == 0
    requires forall i | 0 <= i < |s.providers| :: s.providers[i] == Idle
    ensures var after := ComputeNeededStarts(s).0;
      && |after| == |s.providers|
      && (forall i, sym | 0 <= i < |after| :: Holds(after[i], sym) <==> LowestCapable(s.plan, i, sym))
      && (forall i, j, sym | 0 <= i < j < |after| :: !(Holds(after[i], sym) && Holds(after[j], sym)))
  {
    FrontScan(s.plan, s.providers, 0);
  }

  // ---- Preemption -------------------------------------------------------------------------

  lemma {:induction false} OverlapsFromMembers(ps: seq<ProviderState>, from: nat, symbols: seq<Symbol>, j: nat)
    ensures j in ActiveOverlapsFrom(ps, from, symbols) <==>
            from <= j < |ps| && ps[j].Active? && Overlap(ps[j].symbols, symbols)
    decreases |ps| - from
  {
    if from < |ps| {
      var rest := ActiveOverlapsFrom(ps, from + 1, symbols);
      OverlapsFromMembers(ps, from + 1, symbols, j);
      assert j in ActiveOverlapsFrom(ps, from, symbols) <==>
        (j == from && ps[from].Active? && Overlap(ps[from].symbols, symbols)) || j in rest;
    }
  }

  ghost predicate IncreasesFrom(ids: seq<nat>, from: nat) {
    && (forall x | 0 <= x < |ids| :: from <= ids[x])
    && (forall x, y | 0 <= x < y < |ids| :: ids[x] < ids[y])
  }

  lemma {:induction false} OverlapsFromIncrease(ps: seq<ProviderState>, from: nat, symbols: seq<Symbol>)
    ensures IncreasesFrom(ActiveOverlapsFrom(ps, from, symbols), from)
    decreases |ps| - from
  {
    if from < |ps| {
      OverlapsFromIncrease(ps, from + 1, symbols);
    }
  }

  /** The preemption list is strictly increasing and names exactly the Active overlapping providers after `higher`. */
  lemma LowerPriorityOverlapsExact(ps: seq<ProviderState>, higher: nat, symbols: seq<Symbol>)
    ensures var ids := LowerPriorityOverlaps(ps, higher, symbols);
      && (forall j: nat :: j in ids <==> higher < j < |ps| && ps[j].Active? && Overlap(ps[j].symbols, symbols))
      && IncreasesFrom(ids, higher + 1)
  {
    OverlapsFromIncrease(ps, higher + 1, symbols);
    forall j: nat
      ensures j in LowerPriorityOverlaps(ps, higher, symbols) <==>
              higher < j < |ps| && ps[j].Active? && Overlap(ps[j].symbols, symbols)
    {
      OverlapsFromMembers(ps, higher + 1, symbols, j);
    }
  }

  // ---- Startup notification ---------------------------------------------------------------

  predicate NotificationPending(s: State) {
    s.phase.Startup? && s.phase.initialTx
  }

  function Notifications(actions: seq<Action>): seq<Result<(), seq<Error>>> {
    if actions == [] then []
    else (if actions[0].NotifyInitial? then [actions[0].result] else []) + Notifications(actions[1..])
  }

  lemma {:induction false} NotificationsConcat(a: seq<Action>, b: seq<Action>)
    ensures Notifications(a + b) == Notifications(a) + Notifications(b)
  {
    if a == [] {
      assert a + b == b;
    } else {
      var rest := a[1..];
      assert (a + b)[1..] == rest + b && (a + b)[0] == a[0];
      NotificationsConcat(rest, b);
      var n := if a[0].NotifyInitial? then [a[0].result] else [];
      assert Notifications(a) == n + Notifications(rest);
      assert n + (Notifications(rest) + Notifications(b)) == n + Notifications(rest) + Notifications(b);
    }
  }

  lemma {:induction false} NoNotificationsInStarts(actions: seq<Action>)
    requires forall x | 0 <= x < |actions| :: actions[x].RequestStart?
    ensures Notifications(actions) == []
  {
    if actions != [] {
      NoNotificationsInStarts(actions[1..]);
    }
  }

  lemma HandleNotifications(s: State, e: Event)
    requires ValidEvent(s, e)
    ensures Notifications(Handle(s, e).1) == Notifications(Transition(s, e).1)
    ensures Handle(s, e).0.phase == Transition(s, e).0.phase
  {
    var (s1, a1) := Transition(s, e);
    if ShouldAttemptStarts(s1) && |s1.providers| > 0 {
      var n := |s1.providers|;
      ScanRequests(s1.plan, s1.providers, s1.scanCursor % n, Visits(s1.scanCursor % n, s1.startIndex % n, n));
      NoNotificationsInStarts(ComputeNeededStarts(s1).1);
    }
    NotificationsConcat(a1, ComputeNeededStarts(s1).1);
    assert a1 + [] == a1;
  }

  /**
   * A failed start leaves nothing Active, and the round is exhausted: it was, or the provider is the one before the
   * start index.
   */
  predicate FailureEndsStartup(s: State, id: nat)
    requires id < |s.providers|
  {
    !HasAnyActive(s.providers[id := InCooldown]) && (s.roundExhausted || Next(id, |s.providers|) == s.startIndex)
  }

  /** While an answer is owed, these events end the startup with an error. */
  predicate EndsStartup(s: State, e: Event)
    requires ValidEvent(s, e)
  {
    NotificationPending(s) &&
    match e
    case ProviderStartFailed(id, _) => FailureEndsStartup(s, id)
    case BackoffTick => s.attempted && !HasAnyActive(s.providers) && s.roundExhausted
    case _ => false
  }

  /**
   * The answer an event gives to the caller: the first success, or all errors collected when startup ends without one.
   */
  function Answer(s: State, e: Event): seq<Result<(), seq<Error>>>
    requires ValidEvent(s, e)
  {
    if NotificationPending(s) && e.ProviderStartSucceeded? then [Ok(())]
    else if EndsStartup(s, e) then [Err(s.phase.errors + if e.ProviderStartFailed? then [e.error] else [])]
    else []
  }

  lemma SingletonNotifications(a: Action)
    ensures Notifications([a]) == if a.NotifyInitial? then [a.result] else []
  {
    assert [a][1..] == [];
  }

  lemma ActivationNotifiesNobody(s: State, id: nat, symbols: seq<Symbol>)
    requires id < |s.providers|
    ensures Notifications(ProviderActivated(s, id, symbols).1) == []
  {
    var (s1, a1) := ProviderActivated(s, id, symbols);
    var tick := [ScheduleBackoffTick(s1.backoffMs)];
    var lower := LowerPriorityOverlaps(s1.providers, id, symbols);
    var preempt := if lower != [] then [PreemptSessions(lower)] else [];
    NotificationsConcat(preempt, tick);
    SingletonNotifications(tick[0]);
    SingletonNotifications(PreemptSessions(lower));
  }

  lemma TransitionNotifications(s: State, e: Event)
    requires ValidEvent(s, e)
    ensures Notifications(Transition(s, e).1) == Answer(s, e)
  {
    match e
    case ProviderStartSucceeded(id, symbols) =>
      if s.phase.Startup? || s.phase.Running? {
        ActivationNotifiesNobody(s, id, symbols);
        SingletonNotifications(NotifyInitial(Ok(())));
        NotificationsConcat(if NotificationPending(s) then [NotifyInitial(Ok(()))]
                            else [], ProviderActivated(s, id, symbols).1);
      }
    case ProviderStartFailed(id, error) =>
      if s.phase.Startup? {
        SingletonNotifications(NotifyInitial(Err(s.phase.errors + [error])));
      }
    case BackoffTick =>
      if TickTerminates(s) {
        SingletonNotifications(NotifyInitial(Err(s.phase.errors)));
        assert s.phase.errors + [] == s.phase.errors;
      } else {
        SingletonNotifications(ScheduleBackoffTick(HandleBackoffTick(s).0.backoffMs));
      }
    case Shutdown | DownstreamClosed =>
      SingletonNotifications(StopAll);
      SingletonNotifications(AwaitAll);
      NotificationsConcat([StopAll], [AwaitAll]);
    case SessionEnded(_, _) =>
  }

  /**
   * An event answers the caller at most once, only while the answer is pending, and never again after that. The answer
   * is Ok exactly on the first success, and an error exactly when the event ends the startup; nothing but the answer is
   * done then.
   */
  lemma NotifiesAtMostOnce(s: State, e: Event)
    requires ValidEvent(s, e)
    ensures var (after, actions) := Handle(s, e);
      var sent := Notifications(actions);
      && |sent| <= 1
      && (|sent| == 1 ==> NotificationPending(s) && !NotificationPending(after))
      && (NotificationPending(after) ==> NotificationPending(s))
      && (sent == [Ok(())] <==> NotificationPending(s) && e.ProviderStartSucceeded?)
      && (|sent| == 1 && sent[0].Err? <==> EndsStartup(s, e))
      && (EndsStartup(s, e) ==>
          after.phase == Terminated && !HasAnyActive(after.providers) && after.roundExhausted &&
              actions == [NotifyInitial(sent[0])])
  {
    HandleNotifications(s, e);
    TransitionNotifications(s, e);
  }

  /**
   * Shutting down is not remembered by the state machine itself: the phase survives an event
   * iff the event is not the outcome of a start.
   */
  lemma ShutdownSurvivesExactly(s: State, e: Event)
    requires ValidEvent(s, e) && s.phase == ShuttingDown
    ensures Handle(s, e).0.phase == ShuttingDown <==> !(e.ProviderStartSucceeded? || e.ProviderStartFailed?)
  {
    HandleNotifications(s, e);
  }

  // ---- Backoff ----------------------------------------------------------------------------

  function Pow(b: nat, k: nat): nat {
    if k == 0 then 1 else b * Pow(b, k - 1)
  }

  /** The delay after `k` increases since it last equalled its reset value. */
  function BackoffAfter(plan: Plan, k: nat): nat {
    if k == 0 then plan.minBackoffMs else Min(plan.maxBackoffMs, plan.minBackoffMs * Pow(plan.factor, k))
  }

  predicate Resets(s: State, e: Event)
    requires ValidEvent(s, e)
  {
    e.ProviderStartSucceeded? && (s.phase.Startup? || s.phase.Running?) && s.providers[e.id].IdleFromCooldown?
  }

  /** The number of increases since the last reset, after one more event. */
  function IncreasesAfter(s: State, e: Event, k: nat): nat
    requires ValidEvent(s, e)
  {
    if Resets(s, e) then 0
    else if e.BackoffTick? && s.attempted && !TickTerminates(s) then k + 1
    else k
  }

  lemma CapCommutes(p: nat, f: nat, max: nat)
    ensures Min(Min(max, p) * f, max) == Min(max, p * f)
  {
    if p > max && f > 0 {
      assert max * f >= max;
      assert p * f >= max * f;
    }
  }

  lemma IncreaseFollowsPower(plan: Plan, k: nat)
    requires plan.maxBackoffMs <= U64_MAX
    ensures IncreasedBackoff(BackoffAfter(plan, k), plan.factor, plan.maxBackoffMs) == BackoffAfter(plan, k + 1)
  {
    var m, f := plan.minBackoffMs, plan.factor;
    var p := m * Pow(f, k);
    calc {
      m * Pow(f, k + 1);
      m * (f * Pow(f, k));
      p * f;
    }
    if k > 0 {
      CapCommutes(p, f, plan.maxBackoffMs);
    }
  }

  lemma TransitionBackoff(s: State, e: Event, k: nat)
    requires ValidEvent(s, e) && s.plan.maxBackoffMs <= U64_MAX && s.backoffMs == BackoffAfter(s.plan, k)
    ensures Transition(s, e).0.plan == s.plan
    ensures Transition(s, e).0.backoffMs == BackoffAfter(s.plan, IncreasesAfter(s, e, k))
  {
    IncreaseFollowsPower(s.plan, k);
  }

  /** Every event keeps the delay on the exponential curve. */
  lemma BackoffStep(s: State, e: Event, k: nat)
    requires ValidEvent(s, e) && s.plan.maxBackoffMs <= U64_MAX
    requires s.backoffMs == BackoffAfter(s.plan, k)
    ensures Handle(s, e).0.plan == s.plan
    ensures Handle(s, e).0.backoffMs == BackoffAfter(s.plan, IncreasesAfter(s, e, k))
  {
    TransitionBackoff(s, e, k);
  }

  /** The delay is min(max, min * factor^k); before the first increase this needs min <= max, and only then. */
  lemma BackoffFormula(plan: Plan, k: nat)
    ensures BackoffAfter(plan, k) == Min(plan.maxBackoffMs, plan.minBackoffMs * Pow(plan.factor, k))
            <==> k > 0 || plan.minBackoffMs <= plan.maxBackoffMs
  {
    if k == 0 {
      assert plan.minBackoffMs * Pow(plan.factor, 0) == plan.minBackoffMs;
    }
  }
}

/** The per-symbol monotonic gate of a provider, and the session loop that filters updates through it. */
module Gates {
  import opened Wrappers
  import opened Market

  type Timestamp = int
  type Clock = int

  const ENTRY_TTL: int := 60 * 60 * 24

  datatype Entry = Entry(ts: Timestamp, lastSeen: Clock)

  datatype Op =
    | Allow(key: Symbol, ts: Timestamp, now: Clock)
    | ResetSymbols(keys: seq<Symbol>)
    | Reap(now: Clock)

  // ---- The gate on values -----------------------------------------------------------------

  predicate Passes(entries: map<Symbol, Entry>, key: Symbol, ts: Timestamp) {
    key in entries ==> ts >= entries[key].ts
  }

  function Touched(entries: map<Symbol, Entry>, key: Symbol, ts: Timestamp, now: Clock): map<Symbol, Entry> {
    entries[key := Entry(if key in entries && ts < entries[key].ts then entries[key].ts else ts, now)]
  }

  function Reaped(entries: map<Symbol, Entry>, now: Clock): map<Symbol, Entry> {
    map k | k in entries && now - entries[k].lastSeen <= ENTRY_TTL :: entries[k]
  }

  function After(ops: seq<Op>): map<Symbol, Entry> {
    if ops == [] then map[]
    else
      var before := After(ops[..|ops| - 1]);
      match ops[|ops| - 1]
      case Allow(key, ts, now) => Touched(before, key, ts, now)
      case ResetSymbols(keys) => before - (set k | k in keys)
      case Reap(now) => Reaped(before, now)
  }

  class MonotonicGate {
    var state: map<Symbol, Entry>

    constructor ()
      ensures state == map[]
    {
      state := map[];
    }

    method Allow(key: Symbol, ts: Timestamp, now: Clock) returns (ok: bool)
      modifies this
      ensures ok == Passes(old(state), key, ts)
      ensures state == Touched(old(state), key, ts, now)
    {
      if key in state {
        var prev := state[key];
        if ts < prev.ts {
          state := state[key := prev.(lastSeen := now)];
          return false;
        }
        if ts > prev.ts {
          prev := prev.(ts := ts);
        }
        state := state[key := prev.(lastSeen := now)];
        return true;
      }
      state := state[key := Entry(ts, now)];
      return true;
    }

    method ResetSymbols(symbols: seq<Symbol>)
      modifies this
      ensures state == old(state) - (set k | k in symbols)
    {
      var i := 0;
      while i < |symbols|
        invariant i <= |symbols|
        invariant state == old(state) - (set k | k in symbols[..i])
      {
        state := state - {symbols[i]};
        assert symbols[..i + 1] == symbols[..i] + [symbols[i]];
        i := i + 1;
      }
      assert symbols[..i] == symbols;
    }

    method Reap(now: Clock)
      modifies this
      ensures state == Reaped(old(state), now)
    {
      state := map k | k in state && now - state[k].lastSeen <= ENTRY_TTL :: state[k];
    }
  }

  // ---- The gate against its history -------------------------------------------------------

  /** When the gate was last asked about `key`. */
  function LastAsked(ops: seq<Op>, key: Symbol): Clock {
    if ops == [] then 0
    else
      var op := ops[|ops| - 1];
      if op.Allow? && op.key == key then op.now else LastAsked(ops[..|ops| - 1], key)
  }

  /** Whether the last of `ops` evicts `key`. */
  predicate Evicts(ops: seq<Op>, key: Symbol)
    requires ops != []
  {
    match ops[|ops| - 1]
    case Allow(_, _, _) => false
    case ResetSymbols(keys) => key in keys
    case Reap(now) => now - LastAsked(ops[..|ops| - 1], key) > ENTRY_TTL
  }

  predicate AtLeastAll(ts: Timestamp, accepted: set<Timestamp>) {
    forall a | a in accepted :: ts >= a
  }

  /** Every timestamp accepted for `key` since it was last evicted. */
  function Accepted(ops: seq<Op>, key: Symbol): set<Timestamp> {
    if ops == [] then {}
    else
      var before := Accepted(ops[..|ops| - 1], key);
      var op := ops[|ops| - 1];
      if Evicts(ops, key) then {}
      else if op.Allow? && op.key == key && AtLeastAll(op.ts, before) then before + {op.ts}
      else before
  }

  /** The gate remembers of the accepted timestamps just the greatest. */
  ghost predicate Remembers(entries: map<Symbol, Entry>, ops: seq<Op>, key: Symbol) {
    && (key in entries <==> Accepted(ops, key) != {})
    && (key in entries ==>
          && entries[key].ts in Accepted(ops, key)
          && AtLeastAll(entries[key].ts, Accepted(ops, key))
          && entries[key].lastSeen == LastAsked(ops, key))
  }

  lemma {:induction false} GateRemembers(ops: seq<Op>, key: Symbol)
    ensures Remembers(After(ops), ops, key)
  {
    if ops != [] {
      GateRemembers(ops[..|ops| - 1], key);
    }
  }

  /**
   * After any history, the gate passes `ts` for `key` iff `ts` is at least every accepted timestamp not yet evicted.
   */
  lemma PassesExactly(ops: seq<Op>, key: Symbol, ts: Timestamp)
    ensures Passes(After(ops), key, ts) <==> AtLeastAll(ts, Accepted(ops, key))
  {
    GateRemembers(ops, key);
    assert key in After(ops) ==> After(ops)[key].ts in Accepted(ops, key);
    assert key !in After(ops) ==> Accepted(ops, key) == {};
  }

  /** An accepted timestamp stays accepted as long as the gate keeps its symbol. */
  lemma AcceptedPersists(ops: seq<Op>, op: Op, key: Symbol, ts: Timestamp)
    requires ts in Accepted(ops, key) && key in After(ops + [op])
    ensures ts in Accepted(ops + [op], key)
  {
    assert (ops + [op])[..|ops + [op]| - 1] == ops;
    GateRemembers(ops + [op], key);
  }

  // ---- The session loop -------------------------------------------------------------------

  datatype Update = Update(symbol: Symbol, ts: Timestamp, payload: int)

  /** What a session's loop sees next; `Reaper` is the gate's background task running in between. */
  datatype Input =
    | WatchChanged(stop: bool)
    | StopRequested
    | Received(update: Update, now: Clock, delivered: bool)
    | StreamClosed
    | Reaper(now: Clock)

  datatype End = Running | Stopped | ProviderClosed | DownstreamGone

  predicate InAllowSet(allowed: Option<set<Symbol>>, s: Symbol) {
    allowed.Some? ==> s in allowed.value
  }

  /** The gate operation, if any, that an input causes. */
  function OpsOf(enforce: bool, allowed: Option<set<Symbol>>, i: Input): seq<Op> {
    match i
    case Received(u, now, _) => if enforce && InAllowSet(allowed, u.symbol) then [Allow(u.symbol, u.ts, now)] else []
    case Reaper(now) => [Reap(now)]
    case _ => []
  }

  /** Whether an update gets past both filters, given the gate's history. */
  predicate Admits(enforce: bool, allowed: Option<set<Symbol>>, ops: seq<Op>, u: Update) {
    InAllowSet(allowed, u.symbol) && (enforce ==> Passes(After(ops), u.symbol, u.ts))
  }

  function EndAfter(enforce: bool, allowed: Option<set<Symbol>>, ops: seq<Op>, i: Input): End {
    match i
    case WatchChanged(stop) => if stop then Stopped else Running
    case StopRequested => Stopped
    case Received(u, _, delivered) => if Admits(enforce, allowed, ops, u) && !delivered then DownstreamGone else Running
    case StreamClosed => ProviderClosed
    case Reaper(_) => Running
  }

  function ForwardedBy(enforce: bool, allowed: Option<set<Symbol>>, ops: seq<Op>, i: Input): seq<Update> {
    if i.Received? && Admits(enforce, allowed, ops, i.update) && i.delivered then [i.update] else []
  }

  /** The gate's history, the forwarded updates and the end of a session that has seen `inputs`. */
  function SessionAfter(enforce: bool, allowed: Option<set<Symbol>>, history: seq<Op>,
                        inputs: seq<Input>): (seq<Op>, seq<Update>, End)
  {
    if inputs == [] then (history, [], Running)
    else
      var (ops, forwarded, end) := SessionAfter(enforce, allowed, history, inputs[..|inputs| - 1]);
      var i := inputs[|inputs| - 1];
      if end != Running then (ops, forwarded, end)
      else (ops + OpsOf(enforce, allowed, i), forwarded + ForwardedBy(enforce, allowed, ops, i),
            EndAfter(enforce, allowed, ops, i))
  }

  /** One more input. */
  lemma SessionStep(enforce: bool, allowed: Option<set<Symbol>>, history: seq<Op>, inputs: seq<Input>, n: nat)
    requires n < |inputs|
    ensures var (ops, forwarded, end) := SessionAfter(enforce, allowed, history, inputs[..n]);
      var i := inputs[n];
      SessionAfter(enforce, allowed, history, inputs[..n + 1]) ==
      if end != Running then (ops, forwarded, end)
      else (ops + OpsOf(enforce, allowed, i), forwarded + ForwardedBy(enforce, allowed, ops, i),
            EndAfter(enforce, allowed, ops, i))
  {
    assert inputs[..n + 1][..n] == inputs[..n];
  }

  lemma OpsStep(enforce: bool, allowed: Option<set<Symbol>>, ops: seq<Op>, i: Input)
    ensures var after := ops + OpsOf(enforce, allowed, i);
      if OpsOf(enforce, allowed, i) == [] then after == ops else after[..|after| - 1] == ops
  {
    assert ops + [] == ops;
  }

  /** Handles one input while the session runs. */
  method OnInput(enforce: bool, allowed: Option<set<Symbol>>, gate: MonotonicGate, input: Input, ghost ops: seq<Op>)
    returns (out: seq<Update>, end: End)
    requires gate.state == After(ops)
    modifies gate
    ensures gate.state == After(ops + OpsOf(enforce, allowed, input))
    ensures out == ForwardedBy(enforce, allowed, ops, input) && end == EndAfter(enforce, allowed, ops, input)
  {
    out, end := [], Running;
    OpsStep(enforce, allowed, ops, input);
    match input {
      case WatchChanged(stop) =>
        if stop {
          end := Stopped;
        }
      case StopRequested =>
        end := Stopped;
      case Reaper(now) =>
        gate.Reap(now);
      case StreamClosed =>
        end := ProviderClosed;
      case Received(u, now, delivered) =>
        if !InAllowSet(allowed, u.symbol) {
          return;
        }
        if enforce {
          var pass := gate.Allow(u.symbol, u.ts, now);
          if !pass {
            return;
          }
        }
        if delivered {
          out := [u];
        } else {
          end := DownstreamGone;
        }
    }
  }

  /** Runs a session's loop on what it sees; `history` is what the gate has been through before. */
  method RunSession(enforce: bool, allowed: Option<set<Symbol>>, gate: MonotonicGate, sessionSymbols: seq<Symbol>,
                    inputs: seq<Input>, ghost history: seq<Op>)
    returns (forwarded: seq<Update>, end: End, providerStopped: bool, notified: bool)
    requires gate.state == After(history)
    modifies gate
    ensures var (ops, out, e) := SessionAfter(enforce, allowed, history, inputs);
      && forwarded == out && end == e
      && gate.state == (if e == ProviderClosed && enforce then After(ops + [ResetSymbols(sessionSymbols)])
                        else After(ops))
    ensures providerStopped <==> end != Running
    ensures notified <==> end == Stopped || end == ProviderClosed
  {
    forwarded, end, providerStopped, notified := [], Running, false, false;
    var notifySessionEnd, resetMonotonic := true, false;
    ghost var ops := history;
    var n := 0;
    while n < |inputs| && end == Running
      invariant n <= |inputs|
      invariant gate.state == After(ops)
      invariant (ops, forwarded, end) == SessionAfter(enforce, allowed, history, inputs[..n])
      invariant providerStopped <==> end != Running
      invariant resetMonotonic <==> end == ProviderClosed
      invariant notifySessionEnd <==> end != DownstreamGone
    {
      SessionStep(enforce, allowed, history, inputs, n);
      var out;
      out, end := OnInput(enforce, allowed, gate, inputs[n], ops);
      ops := ops + OpsOf(enforce, allowed, inputs[n]);
      forwarded := forwarded + out;
      notifySessionEnd := end != DownstreamGone;
      resetMonotonic := end == ProviderClosed;
      providerStopped := end != Running;
      n := n + 1;
    }
    if end == Running {
      assert inputs[..n] == inputs;
    } else {
      EndIsFinal(enforce, allowed, history, inputs, n);
    }
    if enforce && resetMonotonic {
      gate.ResetSymbols(sessionSymbols);
      assert (ops + [ResetSymbols(sessionSymbols)])[..|ops|] == ops;
    }
    if end != Running && notifySessionEnd {
      notified := true;
    }
  }

  lemma {:induction false} EndIsFinal(enforce: bool, allowed: Option<set<Symbol>>, history: seq<Op>,
                                      inputs: seq<Input>, n: nat)
    requires n <= |inputs| && SessionAfter(enforce, allowed, history, inputs[..n]).2 != Running
    ensures SessionAfter(enforce, allowed, history, inputs) == SessionAfter(enforce, allowed, history, inputs[..n])
    decreases |inputs|
  {
    if n == |inputs| {
      assert inputs[..n] == inputs;
    } else {
      var init := inputs[..|inputs| - 1];
      assert init[..n] == inputs[..n];
      EndIsFinal(enforce, allowed, history, init, n);
    }
  }

  // ---- What a session forwards ------------------------------------------------------------

  ghost predicate Subsequence<T>(a: seq<T>, b: seq<T>) {
    if a == [] then true
    else if b == [] then false
    else
      || (a[|a| - 1] == b[|b| - 1] && Subsequence(a[..|a| - 1], b[..|b| - 1]))
      || Subsequence(a, b[..|b| - 1])
  }

  function UpdatesIn(inputs: seq<Input>): seq<Update> {
    if inputs == [] then []
    else
      var i := inputs[|inputs| - 1];
      UpdatesIn(inputs[..|inputs| - 1]) + if i.Received? then [i.update] else []
  }

  lemma SubsequenceGrows<T>(a: seq<T>, b: seq<T>, x: T)
    requires Subsequence(a, b)
    ensures Subsequence(a, b + [x]) && Subsequence(a + [x], b + [x])
  {
    assert (a + [x])[..|a|] == a && (b + [x])[..|b|] == b;
  }

  /** A session forwards a subsequence of what it receives, all of it from the allow set. */
  lemma {:induction false} ForwardsSubsequence(enforce: bool, allowed: Option<set<Symbol>>, history: seq<Op>,
                                               inputs: seq<Input>)
    ensures var out := SessionAfter(enforce, allowed, history, inputs).1;
      && Subsequence(out, UpdatesIn(inputs))
      && forall u | u in out :: InAllowSet(allowed, u.symbol)
  {
    if inputs != [] {
      var init, i := inputs[..|inputs| - 1], inputs[|inputs| - 1];
      ForwardsSubsequence(enforce, allowed, history, init);
      var (ops, before, end) := SessionAfter(enforce, allowed, history, init);
      assert before + [] == before && UpdatesIn(init) + [] == UpdatesIn(init);
      if i.Received? {
        SubsequenceGrows(before, UpdatesIn(init), i.update);
      }
    }
  }

  /** With the gate on, an update is forwarded iff it is allowed, delivered and not older than any accepted one. */
  lemma ForwardsExactly(allowed: Option<set<Symbol>>, history: seq<Op>, inputs: seq<Input>, n: nat)
    requires n < |inputs| && inputs[n].Received? && SessionAfter(true, allowed, history, inputs[..n]).2 == Running
    ensures var (ops, out, _) := SessionAfter(true, allowed, history, inputs[..n]);
      var u := inputs[n].update;
      SessionAfter(true, allowed, history, inputs[..n + 1]).1 ==
      if InAllowSet(allowed, u.symbol) && inputs[n].delivered &&
          AtLeastAll(u.ts, Accepted(ops, u.symbol)) then out + [u] else out
  {
    SessionStep(true, allowed, history, inputs, n);
    PassesExactly(SessionAfter(true, allowed, history, inputs[..n]).0, inputs[n].update.symbol, inputs[n].update.ts);
  }

  /** What the gate accepts now is accepted; what was accepted stays so, across one input, while its symbol is kept. */
  lemma AcceptedAcrossInput(allowed: Option<set<Symbol>>, ops: seq<Op>, i: Input, key: Symbol, ts: Timestamp)
    requires key in After(ops + OpsOf(true, allowed, i))
    requires ts in Accepted(ops, key) ||
             (i.Received? && i.update.symbol == key && i.update.ts == ts && Admits(true, allowed, ops, i.update))
    ensures ts in Accepted(ops + OpsOf(true, allowed, i), key)
  {
    var more := OpsOf(true, allowed, i);
    if more == [] {
      assert ops + more == ops;
    } else {
      assert more == [more[0]] && (ops + more)[..|ops|] == ops;
      if ts in Accepted(ops, key) {
        AcceptedPersists(ops, more[0], key, ts);
      } else {
        PassesExactly(ops, key, ts);
      }
    }
  }

  /** The gate's history after the first `n` inputs of a session. */
  function HistoryAt(allowed: Option<set<Symbol>>, history: seq<Op>, inputs: seq<Input>, n: nat): seq<Op>
    requires n <= |inputs|
  {
    SessionAfter(true, allowed, history, inputs[..n]).0
  }

  lemma HistoryStep(allowed: Option<set<Symbol>>, history: seq<Op>, inputs: seq<Input>, n: nat)
    requires n < |inputs|
    ensures HistoryAt(allowed, history, inputs, n + 1) ==
            if SessionAfter(true, allowed, history, inputs[..n]).2 == Running
            then HistoryAt(allowed, history, inputs, n) + OpsOf(true, allowed, inputs[n])
            else HistoryAt(allowed, history, inputs, n)
  {
    SessionStep(true, allowed, history, inputs, n);
  }

  /** The m-th input is an update that the running session's filters let through. */
  predicate LetThrough(allowed: Option<set<Symbol>>, history: seq<Op>, inputs: seq<Input>, m: nat)
    requires m < |inputs|
  {
    && inputs[m].Received?
    && SessionAfter(true, allowed, history, inputs[..m]).2 == Running
    && Admits(true, allowed, HistoryAt(allowed, history, inputs, m), inputs[m].update)
  }

  /** The gate keeps symbol `s` after each of the inputs m to n - 1. */
  ghost predicate KeptThroughout(allowed: Option<set<Symbol>>, history: seq<Op>, inputs: seq<Input>, s: Symbol, m: nat,
                                 n: nat)
    requires n <= |inputs|
  {
    forall k | m < k <= n :: s in After(HistoryAt(allowed, history, inputs, k))
  }

  lemma AcceptedInHistory(allowed: Option<set<Symbol>>, running: bool, before: seq<Op>, after: seq<Op>, i: Input,
                          key: Symbol, ts: Timestamp)
    requires after == if running then before + OpsOf(true, allowed, i) else before
    requires key in After(after)
    requires ts in Accepted(before, key) ||
             (running && i.Received? && i.update.symbol == key && i.update.ts == ts &&
              Admits(true, allowed, before, i.update))
    ensures ts in Accepted(after, key)
  {
    if running {
      AcceptedAcrossInput(allowed, before, i, key, ts);
    }
  }

  /** An update that was let through stays among the accepted timestamps until its symbol is evicted. */
  lemma {:induction false} LetThroughIsAccepted(allowed: Option<set<Symbol>>, history: seq<Op>, inputs: seq<Input>,
                                                m: nat, n: nat)
    requires m < n <= |inputs| && LetThrough(allowed, history, inputs, m)
    requires KeptThroughout(allowed, history, inputs, inputs[m].update.symbol, m, n)
    ensures inputs[m].update.ts in Accepted(HistoryAt(allowed, history, inputs, n), inputs[m].update.symbol)
  {
    if n > m + 1 {
      LetThroughIsAccepted(allowed, history, inputs, m, n - 1);
    }
    AcceptedAcrossStep(allowed, history, inputs, m, n - 1);
  }

  lemma AcceptedAcrossStep(allowed: Option<set<Symbol>>, history: seq<Op>, inputs: seq<Input>, m: nat, k: nat)
    requires m <= k < |inputs| && LetThrough(allowed, history, inputs, m)
    requires var u := inputs[m].update;
      && u.symbol in After(HistoryAt(allowed, history, inputs, k + 1))
      && (k > m ==> u.ts in Accepted(HistoryAt(allowed, history, inputs, k), u.symbol))
    ensures inputs[m].update.ts in Accepted(HistoryAt(allowed, history, inputs, k + 1), inputs[m].update.symbol)
  {
    HistoryStep(allowed, history, inputs, k);
    var running := SessionAfter(true, allowed, history, inputs[..k]).2 == Running;
    AcceptedInHistory(allowed, running, HistoryAt(allowed, history, inputs, k),
                      HistoryAt(allowed, history, inputs, k + 1),
      inputs[k], inputs[m].update.symbol, inputs[m].update.ts);
  }

  /**
   * Between evictions a session's output for a symbol never goes back in time: of two updates let through,
   * the later one is not older, if the gate has kept the symbol since the earlier.
   */
  lemma ForwardsNonDecreasing(allowed: Option<set<Symbol>>, history: seq<Op>, inputs: seq<Input>, m: nat, n: nat)
    requires m < n < |inputs| && LetThrough(allowed, history, inputs, m) && LetThrough(allowed, history, inputs, n)
    requires inputs[m].update.symbol == inputs[n].update.symbol
    requires KeptThroughout(allowed, history, inputs, inputs[m].update.symbol, m, n)
    ensures inputs[m].update.ts <= inputs[n].update.ts
  {
    LetThroughIsAccepted(allowed, history, inputs, m, n);
    PassesExactly(HistoryAt(allowed, history, inputs, n), inputs[n].update.symbol, inputs[n].update.ts);
  }
}

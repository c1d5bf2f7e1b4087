/** Estimating the cadence of a series from the steps between its timestamps. */
module Infer {
  import opened Wrappers
  import opened Candles
  import opened Sorting
  import opened OrderedMap
  import opened Buckets

  ghost predicate Ascending(ts: seq<int>) {
    forall i, j | 0 <= i < j < |ts| :: ts[i] <= ts[j]
  }

  function SortInts(ts: seq<int>): seq<int> {
    SortByKey(ts, (t: int) => t)
  }

  lemma SortIntsFacts(ts: seq<int>)
    ensures Ascending(SortInts(ts)) && |SortInts(ts)| == |ts|
    ensures multiset(SortInts(ts)) == multiset(ts) && forall t :: t in SortInts(ts) <==> t in ts
  {
    var id: int -> int := (t: int) => t;
    SortSorts(ts, id);
    SortMembers(ts, id);
    var out := SortInts(ts);
    forall i, j | 0 <= i < j < |out| ensures out[i] <= out[j] {
      assert id(out[i]) <= id(out[j]);
    }
  }

  function Times(cs: seq<Candle>): seq<int> {
    Mapped(cs, Ts)
  }

  /** The steps of a sorted series of timestamps that move forward, in whole seconds. */
  function Deltas(ts: seq<int>): seq<int> {
    if |ts| <= 1 then []
    else
      var step := ts[|ts| - 1] - ts[|ts| - 2];
      Deltas(ts[..|ts| - 1]) + if step > 0 then [Seconds(step)] else []
  }

  function DeltasOf(cs: seq<Candle>): seq<int> {
    Deltas(SortInts(Times(cs)))
  }

  method PositiveDeltas(ts: seq<int>) returns (deltas: seq<int>)
    requires ts != [] && Ascending(ts)
    ensures deltas == Deltas(ts)
  {
    deltas := [];
    var last := ts[0];
    for i := 1 to |ts|
      invariant last == ts[i - 1] && deltas == Deltas(ts[..i])
    {
      assert ts[..i + 1][..i] == ts[..i] && ts[i - 1] <= ts[i];
      var dt := ts[i] - last;
      if dt > 0 {
        deltas := deltas + [Seconds(dt)];
        last := ts[i];
      }
    }
    assert ts[..|ts|] == ts;
  }

  // ---- The representative step ------------------------------------------------------------

  /** `d` occurs in `m` more often than anything else. */
  ghost predicate UniqueMode(m: multiset<int>, d: int) {
    m[d] > 0 && forall e | e != d :: m[e] < m[d]
  }

  ghost predicate NoUniqueMode(m: multiset<int>) {
    forall d :: !UniqueMode(m, d)
  }

  /** The unique mode if there is one, else the lower median. */
  ghost predicate IsStep(deltas: seq<int>, r: Option<int>) {
    && (r.Some? <==> deltas != [])
    && (r.Some? ==>
          UniqueMode(multiset(deltas), r.value) || (NoUniqueMode(multiset(deltas)) && r.value == LowerMedian(deltas)))
  }

  function LowerMedian(deltas: seq<int>): int
    requires deltas != []
  {
    SortIntsFacts(deltas);
    SortInts(deltas)[(|deltas| - 1) / 2]
  }

  /** The most frequent value of the runs closed so far, how often it occurs, and how many values occur that often. */
  datatype Tally = Tally(best: int, count: nat, candidates: nat)

  function CloseRun(t: Tally, cur: int, n: nat): Tally {
    if n > t.count then Tally(cur, n, 1)
    else if n == t.count then t.(candidates := t.candidates + 1)
    else t
  }

  /** The scan from position `i` on, inside a run of `cur` of length `n`. */
  function ScanFrom(deltas: seq<int>, i: nat, t: Tally, cur: int, n: nat): Tally
    requires i <= |deltas|
    decreases |deltas| - i
  {
    if i == |deltas| then CloseRun(t, cur, n)
    else if deltas[i] == cur then ScanFrom(deltas, i + 1, t, cur, n + 1)
    else ScanFrom(deltas, i + 1, CloseRun(t, cur, n), deltas[i], 1)
  }

  /** The tally is right about the values in `closed`. */
  ghost predicate Tallied(closed: multiset<int>, t: Tally) {
    if closed == multiset{} then t.count == 0 && t.candidates == 0
    else
      && t.count > 0 && t.candidates > 0
      && closed[t.best] == t.count
      && (forall d :: closed[d] <= t.count)
      && (t.candidates == 1 <==> UniqueMode(closed, t.best))
  }

  /** The values scanned are the closed runs, all of smaller values, and the open run of `cur`. */
  ghost predicate Scanned(prefix: seq<int>, closed: multiset<int>, cur: int, n: nat) {
    && n > 0 && multiset(prefix) == closed + multiset{}[cur := n]
    && closed[cur] == 0 && forall d | d in closed :: d < cur
  }

  lemma ScanStep(prefix: seq<int>, closed: multiset<int>, cur: int, n: nat, d: int)
    requires Scanned(prefix, closed, cur, n) && d >= cur
    ensures if d == cur then Scanned(prefix + [d], closed, cur, n + 1)
      else Scanned(prefix + [d], closed + multiset{}[cur := n], d, 1)
  {
    assert multiset(prefix + [d]) == multiset(prefix) + multiset{d};
    if d == cur {
      assert closed + multiset{}[cur := n] + multiset{d} == closed + multiset{}[cur := n + 1];
    } else {
      assert multiset{d} == multiset{}[d := 1];
    }
  }

  lemma CloseRunTallies(closed: multiset<int>, t: Tally, cur: int, n: nat)
    requires Tallied(closed, t) && closed[cur] == 0 && n > 0
    ensures Tallied(closed + multiset{}[cur := n], CloseRun(t, cur, n))
  {
    var after := closed + multiset{}[cur := n];
    assert after[cur] == n && forall d | d != cur :: after[d] == closed[d];
    if n > t.count {
      assert forall d | d != cur :: after[d] <= t.count;
    } else {
      assert closed != multiset{} && t.best != cur;
      if n == t.count {
        assert !UniqueMode(after, t.best);
      }
    }
  }

  lemma ScanNext(deltas: seq<int>, i: nat, cur: int, n: nat, closed: multiset<int>)
    requires 0 < i < |deltas| && Ascending(deltas) && cur == deltas[i - 1] && Scanned(deltas[..i], closed, cur, n)
    ensures if deltas[i] == cur then Scanned(deltas[..i + 1], closed, cur, n + 1)
      else Scanned(deltas[..i + 1], closed + multiset{}[cur := n], deltas[i], 1)
  {
    assert deltas[..i + 1] == deltas[..i] + [deltas[i]];
    ScanStep(deltas[..i], closed, cur, n, deltas[i]);
  }

  lemma {:induction false} ScanTallies(deltas: seq<int>, i: nat, t: Tally, cur: int, n: nat, closed: multiset<int>)
    requires 0 < i <= |deltas| && Ascending(deltas) && cur == deltas[i - 1]
    requires Scanned(deltas[..i], closed, cur, n) && Tallied(closed, t)
    ensures Tallied(multiset(deltas), ScanFrom(deltas, i, t, cur, n))
    decreases |deltas| - i
  {
    if i == |deltas| {
      CloseRunTallies(closed, t, cur, n);
      assert deltas[..i] == deltas;
    } else {
      ScanNext(deltas, i, cur, n, closed);
      if deltas[i] == cur {
        ScanTallies(deltas, i + 1, t, cur, n + 1, closed);
      } else {
        CloseRunTallies(closed, t, cur, n);
        ScanTallies(deltas, i + 1, CloseRun(t, cur, n), deltas[i], 1, closed + multiset{}[cur := n]);
      }
    }
  }

  /** The scan of a sorted series finds its unique mode, or finds that there is none. */
  lemma ScanDecides(deltas: seq<int>)
    requires deltas != [] && Ascending(deltas)
    ensures var t := ScanFrom(deltas, 1, Tally(deltas[0], 0, 0), deltas[0], 1);
      if t.candidates == 1 then UniqueMode(multiset(deltas), t.best) else NoUniqueMode(multiset(deltas))
  {
    var m, t := multiset(deltas), ScanFrom(deltas, 1, Tally(deltas[0], 0, 0), deltas[0], 1);
    assert deltas[..1] == [deltas[0]] && multiset{deltas[0]} == multiset{}[deltas[0] := 1];
    ScanTallies(deltas, 1, Tally(deltas[0], 0, 0), deltas[0], 1, multiset{});
    assert deltas[0] in m;
    forall d | UniqueMode(m, d) ensures t.candidates == 1 {
      assert d == t.best;
    }
  }

  method MostFrequentOrMedian(deltas: seq<int>) returns (r: int)
    requires deltas != [] && Ascending(deltas)
    ensures UniqueMode(multiset(deltas), r) || (NoUniqueMode(multiset(deltas)) && r == deltas[(|deltas| - 1) / 2])
  {
    var bestDelta, bestCount, candidates := deltas[0], 0, 0;
    var cur, n := deltas[0], 1;
    for i := 1 to |deltas|
      invariant ScanFrom(deltas, i, Tally(bestDelta, bestCount, candidates), cur, n)
             == ScanFrom(deltas, 1, Tally(deltas[0], 0, 0), deltas[0], 1)
    {
      var d := deltas[i];
      if d == cur {
        n := n + 1;
        continue;
      }
      if n > bestCount {
        bestCount := n;
        bestDelta := cur;
        candidates := 1;
      } else if n == bestCount {
        candidates := candidates + 1;
      }
      cur := d;
      n := 1;
    }
    if n > bestCount {
      bestDelta := cur;
      candidates := 1;
    } else if n == bestCount {
      candidates := candidates + 1;
    }
    ScanDecides(deltas);
    if candidates == 1 {
      return bestDelta;
    }
    var mid := |deltas| / 2;
    r := if |deltas| % 2 == 1 then deltas[mid] else deltas[mid - 1];
  }

  method EstimateStepSeconds(candles: seq<Candle>) returns (r: Option<int>)
    ensures IsStep(DeltasOf(candles), r)
  {
    if |candles| < 2 {
      FewTimes(candles);
      return None;
    }
    var sorted := SortByKey(candles, Ts);
    TimesSorted(candles);
    var deltas := PositiveDeltas(Times(sorted));
    if deltas == [] {
      return None;
    }
    SortIntsFacts(deltas);
    var step := MostFrequentOrMedian(SortInts(deltas));
    r := Some(step);
  }

  lemma FewTimes(cs: seq<Candle>)
    requires |cs| < 2
    ensures DeltasOf(cs) == []
  {
    SortIntsFacts(Times(cs));
  }

  lemma TimesSorted(cs: seq<Candle>)
    ensures Times(SortByKey(cs, Ts)) == SortInts(Times(cs)) && Ascending(SortInts(Times(cs)))
    ensures |SortByKey(cs, Ts)| == |cs|
  {
    SortMapped(cs, Ts, Ts, (t: int) => t);
    SortIntsFacts(Times(cs));
    SortMembers(cs, Ts);
  }

  // ---- Whether a series is sub-daily ------------------------------------------------------

  function CountSubdaily(deltas: seq<int>): nat {
    if deltas == [] then 0
    else CountSubdaily(deltas[..|deltas| - 1]) + if 0 < deltas[|deltas| - 1] < DAY then 1 else 0
  }

  predicate Subdaily(deltas: seq<int>) {
    CountSubdaily(deltas) >= 3 && CountSubdaily(deltas) * 5 >= |deltas| * 3
  }

  method CountBelowDay(deltas: seq<int>) returns (subdaily: nat)
    ensures subdaily == CountSubdaily(deltas)
  {
    subdaily := 0;
    for i := 0 to |deltas|
      invariant subdaily == CountSubdaily(deltas[..i])
    {
      assert deltas[..i + 1][..i] == deltas[..i];
      if deltas[i] > 0 && deltas[i] < DAY {
        subdaily := subdaily + 1;
      }
    }
    assert deltas[..|deltas|] == deltas;
  }

  method IsSubdaily(candles: seq<Candle>) returns (r: bool)
    ensures r == Subdaily(DeltasOf(candles))
  {
    if |candles| < 2 {
      FewTimes(candles);
      return false;
    }
    var ts := SortInts(Times(candles));
    SortIntsFacts(Times(candles));
    var deltas := PositiveDeltas(ts);
    if deltas == [] {
      return false;
    }
    var subdaily := CountBelowDay(deltas);
    if subdaily < 3 {
      return false;
    }
    r := subdaily * 5 >= |deltas| * 3;
  }

  // ---- What the estimates depend on -------------------------------------------------------

  /** The timestamps `a` and `b` occur and none lies between them. */
  ghost predicate Adjacent(ts: seq<int>, a: int, b: int) {
    a in ts && b in ts && a < b && forall t | t in ts :: t <= a || b <= t
  }

  lemma AdjacentStep(ts: seq<int>, a: int, b: int)
    requires Ascending(ts) && |ts| >= 2
    ensures var n := |ts| - 1;
      Adjacent(ts, a, b) <==> Adjacent(ts[..n], a, b) || (a == ts[n - 1] < b == ts[n])
  {
    var n := |ts| - 1;
    var init, last := ts[..n], ts[n];
    assert ts == init + [last] && init[n - 1] in init;
    assert forall t | t in init :: t <= ts[n - 1] <= last;
    assert forall t :: t in ts <==> t in init || t == last;
    if Adjacent(init, a, b) {
      assert b <= last;
    }
    if Adjacent(ts, a, b) && !Adjacent(init, a, b) {
      assert b == last && b !in init;
      assert ts[n - 1] <= a;
    }
  }

  lemma {:induction false} DeltasAreObserved(ts: seq<int>, d: int)
    requires Ascending(ts) && d in Deltas(ts)
    ensures exists a, b :: Adjacent(ts, a, b) && d == Seconds(b - a)
  {
    var n := |ts| - 1;
    if d in Deltas(ts[..n]) {
      DeltasAreObserved(ts[..n], d);
      var a, b :| Adjacent(ts[..n], a, b) && d == Seconds(b - a);
      AdjacentStep(ts, a, b);
    } else {
      AdjacentStep(ts, ts[n - 1], ts[n]);
    }
  }

  /** A sorted series without its repetitions. */
  function Distinct(ts: seq<int>): seq<int> {
    if |ts| <= 1 then ts
    else Distinct(ts[..|ts| - 1]) + if ts[|ts| - 1] > ts[|ts| - 2] then [ts[|ts| - 1]] else []
  }

  ghost predicate StrictlyAscending(ts: seq<int>) {
    forall i, j | 0 <= i < j < |ts| :: ts[i] < ts[j]
  }

  lemma {:induction false} DistinctMembers(ts: seq<int>)
    requires Ascending(ts)
    ensures (forall t :: t in Distinct(ts) <==> t in ts)
    ensures ts != [] ==> Distinct(ts) != [] && Distinct(ts)[|Distinct(ts)| - 1] == ts[|ts| - 1]
  {
    if |ts| > 1 {
      var init, last := ts[..|ts| - 1], ts[|ts| - 1];
      DistinctMembers(init);
      assert ts == init + [last] && ts[|ts| - 2] in init;
    }
  }

  lemma {:induction false} DistinctFacts(ts: seq<int>)
    requires Ascending(ts)
    ensures StrictlyAscending(Distinct(ts))
  {
    if |ts| > 1 {
      var init := ts[..|ts| - 1];
      DistinctFacts(init);
      DistinctMembers(init);
    }
  }

  lemma DeltasAppend(ts: seq<int>, t: int)
    requires ts != []
    ensures Deltas(ts + [t]) == Deltas(ts) + if t > ts[|ts| - 1] then [Seconds(t - ts[|ts| - 1])] else []
  {
    var more := ts + [t];
    assert more[..|more| - 1] == ts && more[|more| - 1] == t && more[|more| - 2] == ts[|ts| - 1];
  }

  lemma {:induction false} DistinctKeepsDeltas(ts: seq<int>)
    requires Ascending(ts)
    ensures Deltas(Distinct(ts)) == Deltas(ts)
  {
    if |ts| > 1 {
      var init, last := ts[..|ts| - 1], ts[|ts| - 1];
      DistinctKeepsDeltas(init);
      DistinctMembers(init);
      assert ts == init + [last] && init[|init| - 1] == ts[|ts| - 2];
      DeltasAppend(init, last);
      if last > ts[|ts| - 2] {
        DeltasAppend(Distinct(init), last);
      } else {
        assert Distinct(ts) == Distinct(init);
      }
    }
  }

  /** Strictly ascending sequences are determined by their members. */
  lemma {:induction false} SameMembersSameSeq(a: seq<int>, b: seq<int>)
    requires StrictlyAscending(a) && StrictlyAscending(b) && forall t :: t in a <==> t in b
    ensures a == b
    decreases |a|
  {
    if a == [] {
      FirstIsMember(b);
    } else {
      assert a[0] in a;
      var i, j := |a| - 1, |b| - 1;
      assert a[i] in a && b[j] in b;
      assert a[i] == b[j];
      WithoutLast(a);
      WithoutLast(b);
      forall t ensures t in a[..i] <==> t in b[..j] {
        assert t in a <==> t in b;
      }
      SameMembersSameSeq(a[..i], b[..j]);
    }
  }

  lemma WithoutLast(a: seq<int>)
    requires StrictlyAscending(a) && a != []
    ensures forall t :: t in a[..|a| - 1] <==> t in a && t != a[|a| - 1]
  {
    assert a == a[..|a| - 1] + [a[|a| - 1]];
  }

  function Shifted(ts: seq<int>, shift: int): (r: seq<int>)
    ensures |r| == |ts| && forall i | 0 <= i < |ts| :: r[i] == ts[i] + shift
  {
    seq(|ts|, i requires 0 <= i < |ts| => ts[i] + shift)
  }

  lemma {:induction false} DeltasShift(ts: seq<int>, shift: int)
    ensures Deltas(Shifted(ts, shift)) == Deltas(ts)
  {
    if |ts| > 1 {
      DeltasShift(ts[..|ts| - 1], shift);
      assert Shifted(ts, shift)[..|ts| - 1] == Shifted(ts[..|ts| - 1], shift);
    }
  }

  lemma ShiftedMembers(ts: seq<int>, shift: int, t: int)
    ensures t in Shifted(ts, shift) <==> t - shift in ts
  {
    if t - shift in ts {
      var i :| 0 <= i < |ts| && ts[i] == t - shift;
      assert Shifted(ts, shift)[i] == t;
    }
  }

  lemma SortedDeltas(cs: seq<Candle>) returns (m: seq<int>)
    ensures StrictlyAscending(m) && Deltas(m) == DeltasOf(cs) && forall t :: t in m <==> t in Times(cs)
  {
    SortIntsFacts(Times(cs));
    DistinctFacts(SortInts(Times(cs)));
    DistinctMembers(SortInts(Times(cs)));
    DistinctKeepsDeltas(SortInts(Times(cs)));
    m := Distinct(SortInts(Times(cs)));
  }

  /** Only the set of timestamps matters, up to a common shift: not their order, nor how often one occurs. */
  lemma DeltasDependOnSet(xs: seq<Candle>, ys: seq<Candle>, shift: int)
    requires forall t :: t in Times(ys) <==> t - shift in Times(xs)
    ensures DeltasOf(xs) == DeltasOf(ys)
  {
    var a := SortedDeltas(xs);
    var b := SortedDeltas(ys);
    var moved := Shifted(a, shift);
    forall t ensures t in moved <==> t in b {
      ShiftedMembers(a, shift, t);
    }
    SameMembersSameSeq(moved, b);
    DeltasShift(a, shift);
  }

  lemma ModeIsUnique(m: multiset<int>, d: int, e: int)
    requires UniqueMode(m, d) && UniqueMode(m, e)
    ensures d == e
  {
  }

  lemma StepIsUnique(deltas: seq<int>, r: Option<int>, other: Option<int>)
    requires IsStep(deltas, r) && IsStep(deltas, other)
    ensures other == r
  {
    if r.Some? && !NoUniqueMode(multiset(deltas)) {
      ModeIsUnique(multiset(deltas), r.value, other.value);
    }
  }

  /** A step exists iff there are two different timestamps, and it is a step between neighbours of the series. */
  lemma StepIsObserved(cs: seq<Candle>, r: Option<int>)
    requires IsStep(DeltasOf(cs), r)
    ensures r.None? <==> forall a, b | a in Times(cs) && b in Times(cs) :: a == b
    ensures r.Some? ==> exists a, b :: Adjacent(Times(cs), a, b) && r.value == Seconds(b - a)
  {
    var ts, deltas := SortInts(Times(cs)), DeltasOf(cs);
    SortIntsFacts(Times(cs));
    if r.Some? {
      StepOccurs(deltas, r);
      DeltasAreObserved(ts, r.value);
      var a, b :| Adjacent(ts, a, b) && r.value == Seconds(b - a);
      assert Adjacent(Times(cs), a, b);
      assert a in Times(cs) && b in Times(cs) && a != b;
    } else {
      NoDeltas(ts);
      forall a, b | a in Times(cs) && b in Times(cs) ensures a == b {
        assert a in ts && b in ts;
      }
    }
  }

  lemma StepOccurs(deltas: seq<int>, r: Option<int>)
    requires IsStep(deltas, r) && r.Some?
    ensures r.value in deltas
  {
    SortIntsFacts(deltas);
    if UniqueMode(multiset(deltas), r.value) {
      assert r.value in multiset(deltas);
    } else {
      assert r.value in SortInts(deltas);
    }
  }

  lemma {:induction false} NoDeltas(ts: seq<int>)
    requires Ascending(ts) && Deltas(ts) == []
    ensures forall i | 0 <= i < |ts| :: ts[i] == ts[0]
  {
    if |ts| > 1 {
      NoDeltas(ts[..|ts| - 1]);
      assert ts[|ts| - 2] == ts[..|ts| - 1][|ts| - 2];
    }
  }

  /** A series whose neighbours are at least a day apart is not sub-daily. */
  lemma {:induction false} DailyIsNotSubdaily(deltas: seq<int>)
    requires forall i | 0 <= i < |deltas| :: deltas[i] >= DAY
    ensures CountSubdaily(deltas) == 0
  {
    if deltas != [] {
      DailyIsNotSubdaily(deltas[..|deltas| - 1]);
    }
  }
}

/** Which candles a resampled candle opens and closes with, in terms of the series as it is given. */
module ResampleEnds {
  import opened Wrappers
  import opened Candles
  import opened Sorting
  import opened Resample
  import opened ResampleProps

  predicate InBucket(b: Bucketing, k: int, c: Candle) {
    b(c.ts) == Some(k)
  }

  /** One for the candles of bucket `k`, zero for the others. */
  function BucketMark(b: Bucketing, k: int): Candle -> int {
    (c: Candle) => if InBucket(b, k, c) then 1 else 0
  }

  lemma {:induction false} MembersAreMarked(s: seq<Candle>, b: Bucketing, k: int)
    ensures Members(Kept(s, b), b, k) == WithKey(s, BucketMark(b, k), 1)
  {
    if s != [] {
      var init, last := s[..|s| - 1], s[|s| - 1];
      MembersAreMarked(init, b, k);
      if b(last.ts).Some? {
        var ys := Kept(init, b);
        assert Kept(s, b) == ys + [last] && (ys + [last])[..|ys|] == ys;
        MembersStep(ys + [last], b, k);
      } else {
        assert Kept(s, b) == Kept(init, b);
      }
    }
  }

  /** Candle `p` is the earliest of bucket `k`; among equal timestamps, the first. */
  ghost predicate IsEarliest(xs: seq<Candle>, b: Bucketing, k: int, p: nat) {
    && p < |xs| && InBucket(b, k, xs[p])
    && forall q | 0 <= q < |xs| && InBucket(b, k, xs[q]) :: xs[p].ts < xs[q].ts || (xs[p].ts == xs[q].ts && p <= q)
  }

  /** Candle `p` is the latest of bucket `k`; among equal timestamps, the last. */
  ghost predicate IsLatest(xs: seq<Candle>, b: Bucketing, k: int, p: nat) {
    && p < |xs| && InBucket(b, k, xs[p])
    && forall q | 0 <= q < |xs| && InBucket(b, k, xs[q]) :: xs[p].ts > xs[q].ts || (xs[p].ts == xs[q].ts && p >= q)
  }

  lemma InSorted(xs: seq<Candle>, q: nat) returns (r: nat)
    requires q < |xs|
    ensures r < |SortByKey(xs, Ts)| && SortByKey(xs, Ts)[r] == xs[q]
  {
    SortMembers(xs, Ts);
    assert xs[q] in SortByKey(xs, Ts);
    r :| r < |SortByKey(xs, Ts)| && SortByKey(xs, Ts)[r] == xs[q];
  }

  /** A candle of a sorted series that is the first with its timestamp is the first of the given series with it. */
  lemma FirstAtTime(xs: seq<Candle>, r: nat) returns (p: nat)
    requires r < |SortByKey(xs, Ts)| && forall q | 0 <= q < r :: SortByKey(xs, Ts)[q].ts != SortByKey(xs, Ts)[r].ts
    ensures p < |xs| && xs[p] == SortByKey(xs, Ts)[r] && forall q | 0 <= q < p :: xs[q].ts != xs[p].ts
  {
    var s := SortByKey(xs, Ts);
    var t := s[r].ts;
    SortIsStable(xs, Ts, t);
    WithKeyHas(s, Ts, t, s[r]);
    p := FirstWithKey(xs, Ts, t);
    var r' := FirstWithKey(s, Ts, t);
    assert Ts(s[r]) == t && r == r';
  }

  lemma LastAtTime(xs: seq<Candle>, r: nat) returns (p: nat)
    requires r < |SortByKey(xs, Ts)|
    requires forall q | r < q < |SortByKey(xs, Ts)| :: SortByKey(xs, Ts)[q].ts != SortByKey(xs, Ts)[r].ts
    ensures p < |xs| && xs[p] == SortByKey(xs, Ts)[r] && forall q | p < q < |xs| :: xs[q].ts != xs[p].ts
  {
    var s := SortByKey(xs, Ts);
    var t := s[r].ts;
    SortIsStable(xs, Ts, t);
    WithKeyHas(s, Ts, t, s[r]);
    p := LastWithKey(xs, Ts, t);
    var r' := LastWithKey(s, Ts, t);
    assert Ts(s[r]) == t && r == r';
  }

  lemma EarliestOfSorted(xs: seq<Candle>, b: Bucketing, k: int, r: nat, p: nat)
    requires r < |SortByKey(xs, Ts)| && InBucket(b, k, SortByKey(xs, Ts)[r]) && p < |xs| &&
             xs[p] == SortByKey(xs, Ts)[r]
    requires forall q | 0 <= q < r :: !InBucket(b, k, SortByKey(xs, Ts)[q])
    requires forall q | 0 <= q < p :: xs[q].ts != xs[p].ts
    ensures IsEarliest(xs, b, k, p)
  {
    var s := SortByKey(xs, Ts);
    SortSorts(xs, Ts);
    forall q: nat | q < |xs| && InBucket(b, k, xs[q])
      ensures xs[p].ts < xs[q].ts || (xs[p].ts == xs[q].ts && p <= q)
    {
      var r' := InSorted(xs, q);
      assert r < r' ==> Ts(s[r]) <= Ts(s[r']);
    }
  }

  /** The first candle of the bucket in a series. */
  lemma FirstInBucket(s: seq<Candle>, b: Bucketing, k: int) returns (r: nat)
    requires Members(Kept(s, b), b, k) != []
    ensures r < |s| && InBucket(b, k, s[r]) && s[r] == Members(Kept(s, b), b, k)[0]
    ensures forall q | 0 <= q < r :: !InBucket(b, k, s[q]) && s[q].ts != s[r].ts
  {
    MembersAreMarked(s, b, k);
    r := FirstWithKey(s, BucketMark(b, k), 1);
    forall q | 0 <= q < r ensures !InBucket(b, k, s[q]) && s[q].ts != s[r].ts {
      assert BucketMark(b, k)(s[q]) != 1;
    }
  }

  lemma EarliestOpens(xs: seq<Candle>, b: Bucketing, k: int) returns (p: nat)
    requires Members(Kept(SortByKey(xs, Ts), b), b, k) != []
    ensures IsEarliest(xs, b, k, p) && Members(Kept(SortByKey(xs, Ts), b), b, k)[0] == xs[p]
  {
    var r := FirstInBucket(SortByKey(xs, Ts), b, k);
    p := FirstAtTime(xs, r);
    EarliestOfSorted(xs, b, k, r, p);
  }

  lemma LatestOfSorted(xs: seq<Candle>, b: Bucketing, k: int, r: nat, p: nat)
    requires r < |SortByKey(xs, Ts)| && InBucket(b, k, SortByKey(xs, Ts)[r]) && p < |xs| &&
             xs[p] == SortByKey(xs, Ts)[r]
    requires forall q | r < q < |SortByKey(xs, Ts)| :: !InBucket(b, k, SortByKey(xs, Ts)[q])
    requires forall q | p < q < |xs| :: xs[q].ts != xs[p].ts
    ensures IsLatest(xs, b, k, p)
  {
    var s := SortByKey(xs, Ts);
    SortSorts(xs, Ts);
    forall q: nat | q < |xs| && InBucket(b, k, xs[q])
      ensures xs[p].ts > xs[q].ts || (xs[p].ts == xs[q].ts && p >= q)
    {
      var r' := InSorted(xs, q);
      assert r' < r ==> Ts(s[r']) <= Ts(s[r]);
    }
  }

  /** The last candle of the bucket in a series. */
  lemma LastInBucket(s: seq<Candle>, b: Bucketing, k: int) returns (r: nat)
    requires Members(Kept(s, b), b, k) != []
    ensures r < |s| && InBucket(b, k, s[r])
    ensures var g := Members(Kept(s, b), b, k); s[r] == g[|g| - 1]
    ensures forall q | r < q < |s| :: !InBucket(b, k, s[q]) && s[q].ts != s[r].ts
  {
    MembersAreMarked(s, b, k);
    r := LastWithKey(s, BucketMark(b, k), 1);
    forall q | r < q < |s| ensures !InBucket(b, k, s[q]) && s[q].ts != s[r].ts {
      assert BucketMark(b, k)(s[q]) != 1;
    }
  }

  lemma LatestCloses(xs: seq<Candle>, b: Bucketing, k: int) returns (p: nat)
    requires Members(Kept(SortByKey(xs, Ts), b), b, k) != []
    ensures IsLatest(xs, b, k, p)
    ensures var g := Members(Kept(SortByKey(xs, Ts), b), b, k); g[|g| - 1] == xs[p]
  {
    var r := LastInBucket(SortByKey(xs, Ts), b, k);
    p := LastAtTime(xs, r);
    LatestOfSorted(xs, b, k, r, p);
  }

  /**
   * In terms of the given series, in whatever order: a resampled candle opens with the earliest candle of its bucket,
   * the first of these if timestamps are equal, and closes with the latest, the last of these.
   */
  lemma OpensAndCloses(xs: seq<Candle>, b: Bucketing, i: nat) returns (first: nat, last: nat)
    requires Monotone(b) && Resampled(xs, b).Ok? && i < |Resampled(xs, b).value|
    ensures var r := Resampled(xs, b).value[i];
      && IsEarliest(xs, b, r.ts, first) && r.open == xs[first].open
      && IsLatest(xs, b, r.ts, last) && r.close == xs[last].close
  {
    ResamplesByGroup(xs, b);
    var r := Resampled(xs, b).value[i];
    var ys := Kept(SortByKey(xs, Ts), b);
    assert IsCandleOf(r, r.ts, Members(ys, b, r.ts));
    first := EarliestOpens(xs, b, r.ts);
    last := LatestCloses(xs, b, r.ts);
  }
}

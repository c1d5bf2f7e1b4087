/** Exactly when resampling fails on mixed currencies, for any series, and which mixed candles it does not notice. */
module ResampleErrors {
  import opened Candles
  import opened Sorting
  import opened Resample
  import opened ResampleProps

  // ---- The prices that are compared -------------------------------------------------------

  /** The first of the highest highs, and of the lowest lows. */
  function HighOf(g: seq<Candle>): Money
    requires g != []
  {
    var last := g[|g| - 1];
    if |g| == 1 then last.high
    else if last.high.amount > HighOf(g[..|g| - 1]).amount then last.high
    else HighOf(g[..|g| - 1])
  }

  function LowOf(g: seq<Candle>): Money
    requires g != []
  {
    var last := g[|g| - 1];
    if |g| == 1 then last.low
    else if last.low.amount < LowOf(g[..|g| - 1]).amount then last.low
    else LowOf(g[..|g| - 1])
  }

  lemma {:induction false} HighIsFirstBest(g: seq<Candle>)
    requires g != []
    ensures FirstBest(HighOf(g), g, High, true)
  {
    var n := |g| - 1;
    if n == 0 {
      assert IsFirstBest(HighOf(g), g, High, true, 0);
    } else {
      HighIsFirstBest(g[..n]);
      var i :| 0 <= i < n && IsFirstBest(HighOf(g[..n]), g[..n], High, true, i);
      assert forall j | 0 <= j < n :: g[..n][j] == g[j];
      assert IsFirstBest(HighOf(g), g, High, true, if g[n].high.amount > HighOf(g[..n]).amount then n else i);
    }
  }

  lemma {:induction false} LowIsFirstBest(g: seq<Candle>)
    requires g != []
    ensures FirstBest(LowOf(g), g, Low, false)
  {
    var n := |g| - 1;
    if n == 0 {
      assert IsFirstBest(LowOf(g), g, Low, false, 0);
    } else {
      LowIsFirstBest(g[..n]);
      var i :| 0 <= i < n && IsFirstBest(LowOf(g[..n]), g[..n], Low, false, i);
      assert forall j | 0 <= j < n :: g[..n][j] == g[j];
      assert IsFirstBest(LowOf(g), g, Low, false, if g[n].low.amount < LowOf(g[..n]).amount then n else i);
    }
  }

  /** Where candle `i` joins its bucket: its open, the high and low so far and the previous close share a currency. */
  predicate JoinAgrees(g: seq<Candle>, i: nat)
    requires 0 < i < |g|
  {
    UniformPrices(g[i].open, HighOf(g[..i]), LowOf(g[..i]), g[i - 1].close)
  }

  ghost predicate JoinsAgree(g: seq<Candle>) {
    forall i | 0 < i < |g| :: JoinAgrees(g, i)
  }

  /** Where the bucket closes: the first open, the high, the low and the last close are in `cur`. */
  predicate ClosesIn(g: seq<Candle>, cur: Currency) {
    g != [] && UniformPrices(g[0].open, HighOf(g), LowOf(g), g[|g| - 1].close) && g[0].open.currency == cur
  }

  ghost predicate BucketAgrees(g: seq<Candle>, cur: Currency) {
    JoinsAgree(g) && ClosesIn(g, cur)
  }

  ghost predicate AllBucketsAgree(ys: seq<Candle>, b: Bucketing, cur: Currency) {
    forall k | Members(ys, b, k) != [] :: BucketAgrees(Members(ys, b, k), cur)
  }

  // ---- The pass ---------------------------------------------------------------------------

  /**
   * The open bucket holds the prices of its members; the first closed bucket, or the open one, starts with the first
   * candle.
   */
  ghost predicate Holds(r: (seq<Candle>, Acc), ys: seq<Candle>, g: seq<Candle>)
    requires ys != []
  {
    && g != []
    && r.1.open == g[0].open && r.1.high == HighOf(g) && r.1.low == LowOf(g) && r.1.close == g[|g| - 1].close
    && (if r.0 == [] then r.1.open else r.0[0].open) == ys[0].open
  }

  lemma {:induction false} FoldHolds(ys: seq<Candle>, b: Bucketing)
    requires ys != [] && BucketsSorted(ys, b)
    ensures Fold(ys, b).1.bucket == BucketOf(b, ys[|ys| - 1])
    ensures Holds(Fold(ys, b), ys, Members(ys, b, BucketOf(b, ys[|ys| - 1])))
  {
    var init, c := ys[..|ys| - 1], ys[|ys| - 1];
    var k := BucketOf(b, c);
    MembersStep(ys, b, k);
    if init == [] {
      assert Members(init, b, k) == [] && Members(ys, b, k) == [c];
    } else {
      FoldHolds(init, b);
      FoldAppend(init, c, b);
      assert ys == init + [c];
      var (out, acc) := Fold(init, b);
      var g := Members(init, b, k);
      if k == acc.bucket {
        assert (g + [c])[..|g|] == g;
      } else {
        SmallerBuckets(ys, b);
        NoneWithLargerKey(init, b, k);
        assert Members(ys, b, k) == [c];
      }
    }
  }

  /** If the last candle's bucket differs from the one before, it is larger than all before. */
  lemma SmallerBuckets(ys: seq<Candle>, b: Bucketing)
    requires |ys| >= 2 && BucketsSorted(ys, b) && BucketOf(b, ys[|ys| - 2]) != BucketOf(b, ys[|ys| - 1])
    ensures var init := ys[..|ys| - 1]; forall i | 0 <= i < |init| :: BucketOf(b, init[i]) < BucketOf(b, ys[|ys| - 1])
  {
    var n := |ys| - 1;
    assert Bucket(b)(ys[n - 1]) <= Bucket(b)(ys[n]);
    forall i | 0 <= i < n ensures BucketOf(b, ys[i]) < BucketOf(b, ys[n]) {
      assert i < n - 1 ==> Bucket(b)(ys[i]) <= Bucket(b)(ys[n - 1]);
    }
  }

  lemma JoinsGrow(g: seq<Candle>, c: Candle)
    requires g != []
    ensures JoinsAgree(g + [c]) <==> JoinsAgree(g) && UniformPrices(c.open, HighOf(g), LowOf(g), g[|g| - 1].close)
  {
    var more := g + [c];
    assert more[..|g|] == g;
    forall i | 0 < i < |g| ensures JoinAgrees(more, i) <==> JoinAgrees(g, i) {
      assert more[..i] == g[..i];
    }
    if JoinsAgree(more) {
      assert JoinAgrees(more, |g|);
      assert forall i | 0 < i < |g| :: JoinAgrees(more, i);
    }
  }

  /** So far: all buckets join without conflict, and all but bucket `open` close in `cur`. */
  ghost predicate AgreeSoFar(ys: seq<Candle>, b: Bucketing, open: int, cur: Currency) {
    forall k | Members(ys, b, k) != [] :: BucketSoFar(Members(ys, b, k), k != open, cur)
  }

  ghost predicate BucketSoFar(g: seq<Candle>, closed: bool, cur: Currency) {
    JoinsAgree(g) && (closed ==> ClosesIn(g, cur))
  }

  lemma SoFarJoins(ys: seq<Candle>, c: Candle, b: Bucketing, cur: Currency)
    requires Members(ys, b, BucketOf(b, c)) != []
    ensures var k := BucketOf(b, c); var g := Members(ys, b, k);
      AgreeSoFar(ys + [c], b, k, cur) <==>
      AgreeSoFar(ys, b, k, cur) && UniformPrices(c.open, HighOf(g), LowOf(g), g[|g| - 1].close)
  {
    var k, all := BucketOf(b, c), ys + [c];
    var g := Members(ys, b, k);
    assert all[..|all| - 1] == ys;
    MembersStep(all, b, k);
    JoinsGrow(g, c);
    forall j | j != k ensures Members(all, b, j) == Members(ys, b, j) {
      OtherMembersKept(ys, c, b, j);
    }
    if AgreeSoFar(all, b, k, cur) {
      assert BucketSoFar(Members(all, b, k), false, cur);
      forall j | Members(ys, b, j) != [] ensures BucketSoFar(Members(ys, b, j), j != k, cur) {
        assert j != k ==> BucketSoFar(Members(all, b, j), true, cur);
      }
    }
    if AgreeSoFar(ys, b, k, cur) && UniformPrices(c.open, HighOf(g), LowOf(g), g[|g| - 1].close) {
      assert BucketSoFar(g, false, cur);
      forall j | Members(all, b, j) != [] ensures BucketSoFar(Members(all, b, j), j != k, cur) {
        assert j != k ==> BucketSoFar(Members(ys, b, j), true, cur);
      }
    }
  }

  lemma SoFarCloses(ys: seq<Candle>, c: Candle, b: Bucketing, open: int, cur: Currency)
    requires Members(ys, b, open) != [] && Members(ys, b, BucketOf(b, c)) == []
    ensures AgreeSoFar(ys + [c], b, BucketOf(b, c), cur) <==>
            AgreeSoFar(ys, b, open, cur) && ClosesIn(Members(ys, b, open), cur)
  {
    var k, all := BucketOf(b, c), ys + [c];
    assert all[..|all| - 1] == ys;
    MembersStep(all, b, k);
    assert Members(all, b, k) == [c] && JoinsAgree([c]);
    forall j | j != k ensures Members(all, b, j) == Members(ys, b, j) {
      OtherMembersKept(ys, c, b, j);
    }
    if AgreeSoFar(all, b, k, cur) {
      assert BucketSoFar(Members(all, b, open), true, cur);
      forall j | Members(ys, b, j) != [] ensures BucketSoFar(Members(ys, b, j), j != open, cur) {
        assert BucketSoFar(Members(all, b, j), true, cur);
      }
    }
    if AgreeSoFar(ys, b, open, cur) && ClosesIn(Members(ys, b, open), cur) {
      forall j | Members(all, b, j) != [] ensures BucketSoFar(Members(all, b, j), j != k, cur) {
        assert j != k ==> BucketSoFar(Members(ys, b, j), j != open, cur);
      }
    }
  }

  lemma {:induction false} FoldPassesIff(ys: seq<Candle>, b: Bucketing)
    requires ys != [] && BucketsSorted(ys, b)
    ensures FoldPasses(ys, b) <==> AgreeSoFar(ys, b, BucketOf(b, ys[|ys| - 1]), ys[0].open.currency)
  {
    var init, c, cur := ys[..|ys| - 1], ys[|ys| - 1], ys[0].open.currency;
    var k := BucketOf(b, c);
    assert ys == init + [c];
    if init == [] {
      OnlyMember(c, b, cur);
    } else {
      var open := BucketOf(b, init[|init| - 1]);
      FoldPassesIff(init, b);
      FoldHolds(init, b);
      FoldAppend(init, c, b);
      if k == open {
        SoFarJoins(init, c, b, cur);
      } else {
        SmallerBuckets(ys, b);
        NoneWithLargerKey(init, b, k);
        SoFarCloses(init, c, b, open, cur);
        FinalizeIff(Fold(init, b), init, Members(init, b, open));
      }
    }
  }

  lemma OnlyMember(c: Candle, b: Bucketing, cur: Currency)
    ensures AgreeSoFar([c], b, BucketOf(b, c), cur)
  {
    assert [c][..0] == [];
    forall k | Members([c], b, k) != [] ensures BucketSoFar(Members([c], b, k), k != BucketOf(b, c), cur) {
      MembersStep([c], b, k);
      assert Members([c], b, k) == [c];
    }
  }

  lemma FinalizeIff(r: (seq<Candle>, Acc), ys: seq<Candle>, g: seq<Candle>)
    requires ys != [] && Holds(r, ys, g)
    ensures FinalizePasses(r.0, r.1) <==> ClosesIn(g, ys[0].open.currency)
  {
  }

  // ---- Exactly when resampling succeeds ---------------------------------------------------

  lemma PassesIff(ys: seq<Candle>, b: Bucketing)
    requires ys != [] && BucketsSorted(ys, b)
    ensures Passes(ys, b) <==> AllBucketsAgree(ys, b, ys[0].open.currency)
  {
    var cur, open := ys[0].open.currency, BucketOf(b, ys[|ys| - 1]);
    FoldPassesIff(ys, b);
    FoldHolds(ys, b);
    FinalizeIff(Fold(ys, b), ys, Members(ys, b, open));
    if AllBucketsAgree(ys, b, cur) {
      assert BucketAgrees(Members(ys, b, open), cur);
      forall k | Members(ys, b, k) != [] ensures BucketSoFar(Members(ys, b, k), k != open, cur) {
        assert BucketAgrees(Members(ys, b, k), cur);
      }
    }
    if AgreeSoFar(ys, b, open, cur) && ClosesIn(Members(ys, b, open), cur) {
      forall k | Members(ys, b, k) != [] ensures BucketAgrees(Members(ys, b, k), cur) {
        assert BucketSoFar(Members(ys, b, k), k != open, cur);
      }
    }
  }

  /** The first candle is the first of its bucket. */
  lemma {:induction false} FirstMember(ys: seq<Candle>, b: Bucketing)
    requires ys != []
    ensures var g := Members(ys, b, BucketOf(b, ys[0])); g != [] && g[0] == ys[0]
  {
    if |ys| > 1 {
      FirstMember(ys[..|ys| - 1], b);
    } else {
      MembersStep(ys, b, BucketOf(b, ys[0]));
      assert Members(ys[..0], b, BucketOf(b, ys[0])) == [];
    }
  }

  /** There is one currency in which all buckets agree. */
  ghost predicate AgreeInOne(ys: seq<Candle>, b: Bucketing) {
    exists cur :: AllBucketsAgree(ys, b, cur)
  }

  lemma AgreeInFirst(ys: seq<Candle>, b: Bucketing)
    ensures ys == [] ==> AgreeInOne(ys, b)
    ensures ys != [] ==> (AgreeInOne(ys, b) <==> AllBucketsAgree(ys, b, ys[0].open.currency))
  {
    if ys == [] {
      assert AllBucketsAgree(ys, b, 0);
    } else if cur :| AllBucketsAgree(ys, b, cur) {
      FirstMember(ys, b);
      assert BucketAgrees(Members(ys, b, BucketOf(b, ys[0])), cur);
    }
  }

  /**
   * Resampling any series succeeds iff there is one currency such that, in every bucket, whenever a candle joins, its
   * open, the high and low so far and the previous close share a currency, and the first open, the high, the low and
   * the last close are in that one currency.
   */
  lemma SucceedsIff(xs: seq<Candle>, b: Bucketing)
    requires Monotone(b)
    ensures Resampled(xs, b).Ok? <==> AgreeInOne(Kept(SortByKey(xs, Ts), b), b)
  {
    var ys := Kept(SortByKey(xs, Ts), b);
    AgreeInFirst(ys, b);
    if ys != [] {
      KeptBucketsSorted(xs, b);
      PassesIff(ys, b);
    }
  }

  lemma KeptBucketsSorted(xs: seq<Candle>, b: Bucketing)
    requires Monotone(b)
    ensures BucketsSorted(Kept(SortByKey(xs, Ts), b), b)
  {
    var ys := Kept(SortByKey(xs, Ts), b);
    KeptOfSorted(xs, b);
    forall i, j | 0 <= i < j < |ys| ensures Bucket(b)(ys[i]) <= Bucket(b)(ys[j]) {
      assert Ts(ys[i]) <= Ts(ys[j]);
    }
  }

  /** For internally uniform candles that condition is that they all share one currency. */
  lemma UniformSucceedsIff(xs: seq<Candle>, b: Bucketing)
    requires Monotone(b)
    ensures AllUniform(xs) ==>
              (OneCurrency(Kept(SortByKey(xs, Ts), b)) <==> AgreeInOne(Kept(SortByKey(xs, Ts), b), b))
  {
    SucceedsIff(xs, b);
    if AllUniform(xs) {
      SucceedsIffOneCurrency(xs, b);
    }
  }
}

/** Which single price in a foreign currency resampling notices. */
module ResampleForeign {
  import opened Candles
  import opened Sorting
  import opened Resample
  import opened ResampleProps
  import opened ResampleErrors

  datatype Price = OpenPrice | HighPrice | LowPrice | ClosePrice

  function PriceOf(c: Candle, f: Price): Money {
    match f
    case OpenPrice => c.open
    case HighPrice => c.high
    case LowPrice => c.low
    case ClosePrice => c.close
  }

  ghost predicate AllIn(g: seq<Candle>, cur: Currency) {
    forall c, f | c in g :: PriceOf(c, f).currency == cur
  }

  /** Exactly price `f` of the candle is not in `cur`. */
  ghost predicate OnlyForeign(c: Candle, f: Price, cur: Currency) {
    forall h :: PriceOf(c, h).currency == cur <==> h != f
  }

  /** Exactly price `f` of candle `n` is not in `cur`. */
  ghost predicate OneForeign(ys: seq<Candle>, n: nat, f: Price, cur: Currency) {
    n < |ys| && AllIn(ys[..n], cur) && OnlyForeign(ys[n], f, cur) && AllIn(ys[n + 1..], cur)
  }

  /** After the candles `before` of its bucket, the price of `c` neither opens, nor closes, nor is a new high or low. */
  predicate IsPassedOver(before: seq<Candle>, c: Candle, f: Price) {
    && before != []
    && match f
       case OpenPrice => false
       case HighPrice => c.high.amount <= HighOf(before).amount
       case LowPrice => c.low.amount >= LowOf(before).amount
       case ClosePrice => false
  }

  // ---- Buckets that agree -----------------------------------------------------------------

  /** Opens and closes are in `cur`, and so are all highs and lows that are new. */
  ghost predicate Quiet(g: seq<Candle>, cur: Currency) {
    forall i | 0 <= i < |g| :: QuietAt(g, i, cur)
  }

  ghost predicate QuietAt(g: seq<Candle>, i: nat, cur: Currency)
    requires i < |g|
  {
    && g[i].open.currency == cur && g[i].close.currency == cur
    && (g[i].high.currency == cur || IsPassedOver(g[..i], g[i], HighPrice))
    && (g[i].low.currency == cur || IsPassedOver(g[..i], g[i], LowPrice))
  }

  lemma QuietPrefix(g: seq<Candle>, i: nat, cur: Currency)
    requires i <= |g| && Quiet(g, cur)
    ensures Quiet(g[..i], cur)
  {
    forall j | 0 <= j < i ensures QuietAt(g[..i], j, cur) {
      assert g[..i][..j] == g[..j] && QuietAt(g, j, cur);
    }
  }

  lemma {:induction false} QuietExtremes(g: seq<Candle>, cur: Currency)
    requires g != [] && Quiet(g, cur)
    ensures HighOf(g).currency == cur && LowOf(g).currency == cur
  {
    var n := |g| - 1;
    assert QuietAt(g, n, cur);
    if n > 0 {
      QuietPrefix(g, n, cur);
      QuietExtremes(g[..n], cur);
    }
  }

  lemma QuietAgrees(g: seq<Candle>, cur: Currency)
    requires g != [] && Quiet(g, cur)
    ensures BucketAgrees(g, cur)
  {
    forall i | 0 < i < |g| ensures JoinAgrees(g, i) {
      QuietPrefix(g, i, cur);
      QuietExtremes(g[..i], cur);
      assert QuietAt(g, i, cur) && QuietAt(g, i - 1, cur);
    }
    QuietExtremes(g, cur);
    assert QuietAt(g, 0, cur) && QuietAt(g, |g| - 1, cur);
  }

  lemma AllInAgrees(g: seq<Candle>, cur: Currency)
    requires g != [] && AllIn(g, cur)
    ensures BucketAgrees(g, cur)
  {
    forall i | 0 <= i < |g| ensures QuietAt(g, i, cur) {
      InCurrency(g, i, cur);
    }
    QuietAgrees(g, cur);
  }

  lemma InCurrency(g: seq<Candle>, i: nat, cur: Currency)
    requires i < |g| && AllIn(g, cur)
    ensures g[i].open.currency == cur && g[i].high.currency == cur && g[i].low.currency == cur &&
            g[i].close.currency == cur
  {
    assert g[i] in g;
    assert PriceOf(g[i], OpenPrice).currency == cur && PriceOf(g[i], HighPrice).currency == cur;
    assert PriceOf(g[i], LowPrice).currency == cur && PriceOf(g[i], ClosePrice).currency == cur;
  }

  lemma ForeignPrices(c: Candle, f: Price, cur: Currency)
    requires OnlyForeign(c, f, cur)
    ensures c.open.currency == cur <==> !f.OpenPrice?
    ensures c.high.currency == cur <==> !f.HighPrice?
    ensures c.low.currency == cur <==> !f.LowPrice?
    ensures c.close.currency == cur <==> !f.ClosePrice?
  {
    assert PriceOf(c, OpenPrice).currency == cur <==> f != OpenPrice;
    assert PriceOf(c, HighPrice).currency == cur <==> f != HighPrice;
    assert PriceOf(c, LowPrice).currency == cur <==> f != LowPrice;
    assert PriceOf(c, ClosePrice).currency == cur <==> f != ClosePrice;
  }

  /** A foreign price that is passed over leaves its bucket in agreement. */
  lemma PassedOverAgrees(before: seq<Candle>, c: Candle, after: seq<Candle>, f: Price, cur: Currency)
    requires AllIn(before, cur) && OnlyForeign(c, f, cur) && AllIn(after, cur) && IsPassedOver(before, c, f)
    ensures BucketAgrees(before + [c] + after, cur)
  {
    var g, m := before + [c] + after, |before|;
    ForeignPrices(c, f, cur);
    assert g[..m] == before && g[m] == c;
    forall i | 0 <= i < |g| ensures QuietAt(g, i, cur) {
      if i < m {
        InCurrency(before, i, cur);
      } else if i > m {
        InCurrency(after, i - m - 1, cur);
      }
    }
    QuietAgrees(g, cur);
  }

  /** Any other is compared with a price in the common currency, at the latest where the bucket closes. */
  lemma ForeignDisagrees(before: seq<Candle>, c: Candle, after: seq<Candle>, f: Price, cur: Currency, other: Currency)
    requires AllIn(before, cur) && OnlyForeign(c, f, cur) && AllIn(after, cur) && !IsPassedOver(before, c, f)
    ensures !BucketAgrees(before + [c] + after, other)
  {
    var g, m := before + [c] + after, |before|;
    ForeignPrices(c, f, cur);
    assert g[m] == c && g[..m] == before && g[..m + 1] == before + [c] && g[..m + 1][..m] == before;
    if before != [] {
      InCurrency(before, 0, cur);
      InCurrency(before, m - 1, cur);
      assert g[0] == before[0] && g[m - 1] == before[m - 1];
    }
    if after != [] {
      InCurrency(after, 0, cur);
      InCurrency(after, |after| - 1, cur);
      assert g[m + 1] == after[0] && g[|g| - 1] == after[|after| - 1];
    } else {
      assert g[..m + 1] == g;
    }
    if JoinsAgree(g) {
      assert before != [] ==> JoinAgrees(g, m);
      assert after != [] ==> JoinAgrees(g, m + 1);
    }
  }

  // ---- The whole series -------------------------------------------------------------------

  lemma MembersAllIn(ys: seq<Candle>, b: Bucketing, k: int, cur: Currency)
    requires AllIn(ys, cur)
    ensures AllIn(Members(ys, b, k), cur)
  {
    forall c | c in Members(ys, b, k) ensures c in ys {
      WithKeyHas(ys, Bucket(b), k, c);
    }
  }

  /** The bucket `k` of the series: before candle `n`, the candle if it belongs there, and after it. */
  lemma BucketAround(ys: seq<Candle>, b: Bucketing, k: int, n: nat)
    requires n < |ys|
    ensures Members(ys, b, k) ==
            Members(ys[..n], b, k) + (if BucketOf(b, ys[n]) == k then [ys[n]] else []) + Members(ys[n + 1..], b, k)
  {
    assert ys == ys[..n + 1] + ys[n + 1..] && ys[..n + 1][..n] == ys[..n];
    WithKeyConcat(ys[..n + 1], ys[n + 1..], Bucket(b), k);
    MembersStep(ys[..n + 1], b, k);
  }

  /** In a bucketed series with one foreign price, all buckets agree iff that price is passed over in its bucket. */
  lemma OneForeignAgreesIff(ys: seq<Candle>, b: Bucketing, n: nat, f: Price, cur: Currency)
    requires OneForeign(ys, n, f, cur)
    ensures AgreeInOne(ys, b) <==> IsPassedOver(Members(ys[..n], b, BucketOf(b, ys[n])), ys[n], f)
  {
    var home := BucketOf(b, ys[n]);
    var before, after := Members(ys[..n], b, home), Members(ys[n + 1..], b, home);
    MembersAllIn(ys[..n], b, home, cur);
    MembersAllIn(ys[n + 1..], b, home, cur);
    BucketAround(ys, b, home, n);
    assert Members(ys, b, home) == before + [ys[n]] + after;
    if IsPassedOver(before, ys[n], f) {
      PassedOverAgrees(before, ys[n], after, f, cur);
      forall k | Members(ys, b, k) != [] ensures BucketAgrees(Members(ys, b, k), cur) {
        if k != home {
          OtherBucketAgrees(ys, b, k, n, cur);
        }
      }
      assert AllBucketsAgree(ys, b, cur);
    } else if other :| AllBucketsAgree(ys, b, other) {
      ForeignDisagrees(before, ys[n], after, f, cur, other);
    }
  }

  lemma OtherBucketAgrees(ys: seq<Candle>, b: Bucketing, k: int, n: nat, cur: Currency)
    requires n < |ys| && AllIn(ys[..n], cur) && AllIn(ys[n + 1..], cur)
    requires BucketOf(b, ys[n]) != k && Members(ys, b, k) != []
    ensures BucketAgrees(Members(ys, b, k), cur)
  {
    BucketAround(ys, b, k, n);
    MembersAllIn(ys[..n], b, k, cur);
    MembersAllIn(ys[n + 1..], b, k, cur);
    AllInAgrees(Members(ys, b, k), cur);
  }

  /**
   * If exactly one price of a series is in a foreign currency, resampling does not notice it iff it is the high or the
   * low of a candle that is not the first of its bucket, and does not exceed the high, or fall below the low, of those
   * before.
   */
  lemma ForeignUnnoticedIff(xs: seq<Candle>, b: Bucketing, n: nat, f: Price, cur: Currency)
    requires Monotone(b) && OneForeign(Kept(SortByKey(xs, Ts), b), n, f, cur)
    ensures var ys := Kept(SortByKey(xs, Ts), b);
      Resampled(xs, b).Ok? <==> IsPassedOver(Members(ys[..n], b, BucketOf(b, ys[n])), ys[n], f)
  {
    SucceedsIff(xs, b);
    OneForeignAgreesIff(Kept(SortByKey(xs, Ts), b), b, n, f, cur);
  }
}

/** Resampling a candle series into buckets with one pass over the sorted series. */
module Resample {
  import opened Wrappers
  import opened Candles
  import opened Sorting

  /** Maps a timestamp to the start of its bucket, if that exists. */
  type Bucketing = int -> Option<int>

  /** A bucket being filled. */
  datatype Acc = Acc(bucket: int, open: Money, high: Money, low: Money, close: Money, volume: Option<nat>)

  function Start(bucket: int, c: Candle): Acc {
    Acc(bucket, c.open, c.high, c.low, c.close, c.volume)
  }

  function AddVolume(a: Option<nat>, b: Option<nat>): Option<nat> {
    if b.None? then a else Some((if a.Some? then a.value else 0) + b.value)
  }

  function Absorb(acc: Acc, c: Candle): Acc {
    acc.(high := if c.high.amount > acc.high.amount then c.high else acc.high,
         low := if c.low.amount < acc.low.amount then c.low else acc.low,
         close := c.close,
         volume := AddVolume(acc.volume, c.volume))
  }

  function Clamp(v: Option<nat>): Option<nat> {
    if v.Some? && v.value > U64_MAX then Some(U64_MAX) else v
  }

  function Close(acc: Acc): Candle {
    Candle(acc.bucket, acc.open, acc.high, acc.low, acc.close, None, Clamp(acc.volume))
  }

  // ---- The pass on values -----------------------------------------------------------------

  /** The candles that have a bucket. */
  function Kept(xs: seq<Candle>, b: Bucketing): (ys: seq<Candle>)
    ensures forall i | 0 <= i < |ys| :: b(ys[i].ts).Some?
  {
    if xs == [] then []
    else Kept(xs[..|xs| - 1], b) + if b(xs[|xs| - 1].ts).Some? then [xs[|xs| - 1]] else []
  }

  function BucketOf(b: Bucketing, c: Candle): int {
    if b(c.ts).Some? then b(c.ts).value else 0
  }

  /** The closed buckets and the open one after a non-empty series. */
  function Fold(ys: seq<Candle>, b: Bucketing): (seq<Candle>, Acc)
    requires ys != []
  {
    var c := ys[|ys| - 1];
    if |ys| == 1 then ([], Start(BucketOf(b, c), c))
    else
      var (out, acc) := Fold(ys[..|ys| - 1], b);
      if BucketOf(b, c) == acc.bucket then (out, Absorb(acc, c))
      else (out + [Close(acc)], Start(BucketOf(b, c), c))
  }

  function CloseLast(r: (seq<Candle>, Acc)): seq<Candle> {
    r.0 + [Close(r.1)]
  }

  /** A bucket closes without error if its prices share a currency, the one of the first closed bucket. */
  predicate FinalizePasses(out: seq<Candle>, acc: Acc) {
    UniformPrices(acc.open, acc.high, acc.low, acc.close) && (out != [] ==> out[0].open.currency == acc.open.currency)
  }

  predicate FoldPasses(ys: seq<Candle>, b: Bucketing)
    requires ys != []
  {
    |ys| == 1 ||
    (var init, c := ys[..|ys| - 1], ys[|ys| - 1];
     var (out, acc) := Fold(init, b);
     FoldPasses(init, b) &&
     if BucketOf(b, c) == acc.bucket then UniformPrices(c.open, acc.high, acc.low, acc.close)
         else FinalizePasses(out, acc))
  }

  predicate Passes(ys: seq<Candle>, b: Bucketing)
    requires ys != []
  {
    FoldPasses(ys, b) && FinalizePasses(Fold(ys, b).0, Fold(ys, b).1)
  }

  /** The result of the pass over candles already sorted. */
  function PassResult(sorted: seq<Candle>, b: Bucketing): Result<seq<Candle>, DataError> {
    var ys := Kept(sorted, b);
    if ys == [] then Ok([]) else if Passes(ys, b) then Ok(CloseLast(Fold(ys, b))) else Err(MixedCurrency)
  }

  function Resampled(xs: seq<Candle>, b: Bucketing): Result<seq<Candle>, DataError> {
    PassResult(SortByKey(xs, Ts), b)
  }

  // ---- The pass as a loop -----------------------------------------------------------------

  method FinalizeBucket(out: seq<Candle>, seriesCurrency: Option<Currency>, acc: Acc)
    returns (r: Result<(seq<Candle>, Option<Currency>), DataError>)
    requires seriesCurrency == if out == [] then None else Some(out[0].open.currency)
    ensures r == if FinalizePasses(out, acc) then Ok((out + [Close(acc)], Some(acc.open.currency)))
            else Err(MixedCurrency)
  {
    if !UniformPrices(acc.open, acc.high, acc.low, acc.close) {
      return Err(MixedCurrency);
    }
    var cur := seriesCurrency;
    if cur.Some? {
      if cur.value != acc.open.currency {
        return Err(MixedCurrency);
      }
    } else if out == [] {
      cur := Some(acc.open.currency);
    }
    return Ok((out + [Close(acc)], cur));
  }

  /** The rest of the pass, from candle `i` on. */
  function PassFrom(sorted: seq<Candle>, i: nat, b: Bucketing, out: seq<Candle>,
                    acc: Acc): Result<seq<Candle>, DataError>
    requires i <= |sorted|
    decreases |sorted| - i
  {
    if i == |sorted| then if FinalizePasses(out, acc) then Ok(CloseLast((out, acc))) else Err(MixedCurrency)
    else
      var c := sorted[i];
      if b(c.ts).None? then PassFrom(sorted, i + 1, b, out, acc)
      else if b(c.ts).value == acc.bucket then
        if UniformPrices(c.open, acc.high, acc.low, acc.close)
        then PassFrom(sorted, i + 1, b, out, Absorb(acc, c))
        else Err(MixedCurrency)
      else if FinalizePasses(out, acc)
      then PassFrom(sorted, i + 1, b, out + [Close(acc)], Start(b(c.ts).value, c))
      else Err(MixedCurrency)
  }

  method ResampleBy(candles: seq<Candle>, b: Bucketing) returns (r: Result<seq<Candle>, DataError>)
    ensures r == Resampled(candles, b)
  {
    var sorted := SortByKey(candles, Ts);
    var i := 0;
    while i < |sorted| && b(sorted[i].ts).None?
      invariant i <= |sorted|
      invariant forall j | 0 <= j < i :: b(sorted[j].ts).None?
    {
      i := i + 1;
    }
    PassComputes(sorted, i, b);
    if i == |sorted| {
      return Ok([]);
    }
    var first := sorted[i];
    var acc := Start(b(first.ts).value, first);
    var out: seq<Candle>, seriesCurrency: Option<Currency> := [], None;
    i := i + 1;
    while i < |sorted|
      invariant i <= |sorted|
      invariant PassFrom(sorted, i, b, out, acc) == Resampled(candles, b)
      invariant seriesCurrency == if out == [] then None else Some(out[0].open.currency)
    {
      var c := sorted[i];
      i := i + 1;
      if b(c.ts).None? {
        continue;
      }
      var bucket := b(c.ts).value;
      if bucket == acc.bucket {
        if !UniformPrices(c.open, acc.high, acc.low, acc.close) {
          return Err(MixedCurrency);
        }
        acc := Absorb(acc, c);
      } else {
        var f := FinalizeBucket(out, seriesCurrency, acc);
        if f.Err? {
          return Err(f.error);
        }
        out, seriesCurrency := f.value.0, f.value.1;
        acc := Start(bucket, c);
      }
    }
    var f := FinalizeBucket(out, seriesCurrency, acc);
    r := if f.Ok? then Ok(f.value.0) else Err(f.error);
  }

  lemma KeptStep(xs: seq<Candle>, i: nat, b: Bucketing)
    requires i < |xs|
    ensures Kept(xs[..i + 1], b) == if b(xs[i].ts).Some? then Kept(xs[..i], b) + [xs[i]] else Kept(xs[..i], b)
  {
    assert xs[..i + 1][..i] == xs[..i];
  }

  lemma {:induction false} KeptNone(xs: seq<Candle>, b: Bucketing)
    requires forall j | 0 <= j < |xs| :: b(xs[j].ts).None?
    ensures Kept(xs, b) == []
  {
    if xs != [] {
      KeptNone(xs[..|xs| - 1], b);
    }
  }

  lemma FoldAppend(ys: seq<Candle>, c: Candle, b: Bucketing)
    requires ys != []
    ensures var (out, acc) := Fold(ys, b);
      && Fold(ys + [c], b) ==
         (if BucketOf(b, c) == acc.bucket then (out, Absorb(acc, c))
          else (out + [Close(acc)], Start(BucketOf(b, c), c)))
      && (FoldPasses(ys + [c], b) <==>
          FoldPasses(ys, b) &&
          if BucketOf(b, c) == acc.bucket then UniformPrices(c.open, acc.high, acc.low, acc.close)
              else FinalizePasses(out, acc))
  {
    assert (ys + [c])[..|ys + [c]| - 1] == ys;
  }

  /** Once a prefix fails, the whole pass fails. */
  lemma {:induction false} FailsForever(xs: seq<Candle>, i: nat, b: Bucketing)
    requires i <= |xs| && Kept(xs[..i], b) != [] && !FoldPasses(Kept(xs[..i], b), b)
    ensures Kept(xs, b) != [] && !FoldPasses(Kept(xs, b), b)
    decreases |xs| - i
  {
    if i == |xs| {
      assert xs[..i] == xs;
    } else {
      KeptStep(xs, i, b);
      if b(xs[i].ts).Some? {
        FoldAppend(Kept(xs[..i], b), xs[i], b);
      }
      FailsForever(xs, i + 1, b);
    }
  }

  /** After a passing prefix, the rest of the pass yields the result of the whole. */
  lemma {:induction false} PassFromPrefix(sorted: seq<Candle>, i: nat, b: Bucketing, ys: seq<Candle>)
    requires i <= |sorted| && ys != [] && ys == Kept(sorted[..i], b) && FoldPasses(ys, b)
    ensures PassFrom(sorted, i, b, Fold(ys, b).0, Fold(ys, b).1) == PassResult(sorted, b)
    decreases |sorted| - i
  {
    if i == |sorted| {
      assert sorted[..i] == sorted;
    } else {
      var c := sorted[i];
      KeptStep(sorted, i, b);
      if b(c.ts).None? {
        PassFromPrefix(sorted, i + 1, b, ys);
      } else {
        FoldAppend(ys, c, b);
        if FoldPasses(ys + [c], b) {
          PassFromPrefix(sorted, i + 1, b, ys + [c]);
        } else {
          FailsForever(sorted, i + 1, b);
        }
      }
    }
  }

  /** The pass starts with the first candle that has a bucket. */
  lemma PassComputes(sorted: seq<Candle>, i: nat, b: Bucketing)
    requires i <= |sorted| && (forall j | 0 <= j < i :: b(sorted[j].ts).None?)
    requires i < |sorted| ==> b(sorted[i].ts).Some?
    ensures if i == |sorted| then PassResult(sorted, b) == Ok([])
      else PassFrom(sorted, i + 1, b, [], Start(b(sorted[i].ts).value, sorted[i])) == PassResult(sorted, b)
  {
    KeptNone(sorted[..i], b);
    if i == |sorted| {
      assert sorted[..i] == sorted;
    } else {
      KeptStep(sorted, i, b);
      PassFromPrefix(sorted, i + 1, b, [sorted[i]]);
    }
  }
}

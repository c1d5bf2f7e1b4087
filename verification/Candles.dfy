/** Candles, their prices, and the currency helpers shared by merging and resampling. */
module Candles {
  import opened Wrappers

  /** Currencies are opaque identifiers; amounts are exact and ordered. */
  type Currency = nat

  datatype Money = Money(amount: int, currency: Currency)

  const NANOS := 1_000_000_000

  /** Timestamps are nanoseconds since the epoch. */
  datatype Candle = Candle(
    ts: int,
    open: Money,
    high: Money,
    low: Money,
    close: Money,
    closeUnadj: Option<Money>,
    volume: Option<nat>)

  datatype DataError = MixedCurrency | EmptySeries

  function Ts(c: Candle): int { c.ts }

  function Strip(c: Candle): Candle {
    c.(closeUnadj := None)
  }

  function StripAll(cs: seq<Candle>): seq<Candle> {
    seq(|cs|, i requires 0 <= i < |cs| => Strip(cs[i]))
  }

  predicate UniformPrices(open: Money, high: Money, low: Money, close: Money) {
    open.currency == high.currency == low.currency == close.currency
  }

  /** The candle's four prices share a currency. */
  predicate Uniform(c: Candle) {
    UniformPrices(c.open, c.high, c.low, c.close)
  }

  ghost predicate AllUniform(cs: seq<Candle>) {
    forall i | 0 <= i < |cs| :: Uniform(cs[i])
  }

  ghost predicate OneCurrency(cs: seq<Candle>) {
    forall i, j | 0 <= i < |cs| && 0 <= j < |cs| :: cs[i].open.currency == cs[j].open.currency
  }

  method StripUnadjusted(cs: array<Candle>)
    modifies cs
    ensures cs[..] == StripAll(old(cs[..]))
  {
    for i := 0 to cs.Length
      invariant forall j | 0 <= j < cs.Length :: cs[j] == if j < i then Strip(old(cs[j])) else old(cs[j])
    {
      cs[i] := cs[i].(closeUnadj := None);
    }
  }

  /** The common currency of a non-empty series of uniform candles that share one; an error otherwise. */
  method EnsureSeriesCurrencyUniform(cs: seq<Candle>) returns (r: Result<Currency, DataError>)
    ensures r.Ok? <==> cs != [] && AllUniform(cs) && OneCurrency(cs)
    ensures r.Ok? ==> r.value == cs[0].open.currency
    ensures cs == [] ==> r == Err(EmptySeries)
  {
    var cur: Option<Currency> := None;
    for i := 0 to |cs|
      invariant cur == if i == 0 then None else Some(cs[0].open.currency)
      invariant forall j | 0 <= j < i :: Uniform(cs[j]) && cs[j].open.currency == cs[0].open.currency
    {
      if !Uniform(cs[i]) {
        return Err(MixedCurrency);
      }
      if cur.Some? {
        if cur.value != cs[i].open.currency {
          return Err(MixedCurrency);
        }
      } else {
        cur := Some(cs[i].open.currency);
      }
    }
    r := if cur.Some? then Ok(cur.value) else Err(EmptySeries);
  }
}

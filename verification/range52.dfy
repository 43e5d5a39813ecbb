/** `find52WeekHighLow`: the highest and lowest close over the last
    `min(252, n)` trading days, and the percentage distances of the current close
    from them. */
module Range52 {
  import opened RealSeq

  datatype Range = Range(high: real, low: real)

  /** Trading days in a year of closes. */
  const TradingYear: nat := 252

  /** `{ high: Math.max(...recent), low: Math.min(...recent) }` over
      `recent = prices.slice(-Math.min(252, prices.length))`; every caller has at
      least one bar. */
  function Week52(xs: seq<real>): (r: Range)
    requires |xs| > 0
    ensures forall j :: |xs| - |Recent(xs, TradingYear)| <= j < |xs| ==> r.low <= xs[j] <= r.high
    ensures exists j :: |xs| - |Recent(xs, TradingYear)| <= j < |xs| && xs[j] == r.high
    ensures exists j :: |xs| - |Recent(xs, TradingYear)| <= j < |xs| && xs[j] == r.low
  {
    var w := Recent(xs, TradingYear);
    var start := |xs| - |w|;
    assert forall j :: start <= j < |xs| ==> xs[j] == w[j - start];
    var hi := MaxOf(w);
    var lo := MinOf(w);
    var jh :| 0 <= jh < |w| && w[jh] == hi;
    var jl :| 0 <= jl < |w| && w[jl] == lo;
    assert xs[start + jh] == hi && xs[start + jl] == lo;
    Range(hi, lo)
  }

  /** `(high - currentPrice) / high * 100` */
  function DistanceFromHigh(high: real, price: real): real
    requires high != 0.0
  {
    (high - price) / high * 100.0
  }

  /** `(currentPrice - low) / low * 100` */
  function DistanceFromLow(low: real, price: real): real
    requires low != 0.0
  {
    (price - low) / low * 100.0
  }

  /** "More than `t`% below the high" means the price is under `(1 - t/100)·high`. */
  lemma DistanceFromHighMeaning(high: real, price: real, t: real)
    requires high > 0.0
    ensures DistanceFromHigh(high, price) > t <==> price < high * (1.0 - t / 100.0)
  {
    var q := price / high;
    assert q * high == price;
    assert (high - price) / high == 1.0 - q by {
      assert (1.0 - q) * high == high - price;
      assert ((high - price) / high) * high == high - price;
      CancelFactor((high - price) / high, 1.0 - q, high);
    }
    var c := 1.0 - t / 100.0;
    assert DistanceFromHigh(high, price) == (1.0 - q) * 100.0;
    assert DistanceFromHigh(high, price) > t <==> q < c;
    assert q < c <==> q * high < c * high;
    assert c * high == high * c;
  }

  /** For positive closes the high and low are positive and the current (last)
      close lies between them, so both distances are non-negative and the
      distance from the high stays below 100. */
  lemma DistancesNonNegative(xs: seq<real>)
    requires |xs| > 0
    requires forall j :: 0 <= j < |xs| ==> xs[j] > 0.0
    ensures var r := Week52(xs);
            && r.high > 0.0 && r.low > 0.0
            && 0.0 <= DistanceFromHigh(r.high, xs[|xs| - 1]) < 100.0
            && DistanceFromLow(r.low, xs[|xs| - 1]) >= 0.0
  {
    var r := Week52(xs);
    var cur := xs[|xs| - 1];
    assert r.low <= cur <= r.high;
    PositiveLow(xs);
    FromHighBounds(r.high, cur);
    FromLowBound(r.low, cur);
  }

  lemma FromHighBounds(high: real, price: real)
    requires 0.0 < price <= high
    ensures 0.0 <= DistanceFromHigh(high, price) < 100.0
  {
    RatioBounds(high - price, high);
  }

  lemma FromLowBound(low: real, price: real)
    requires 0.0 < low <= price
    ensures DistanceFromLow(low, price) >= 0.0
  {
    RatioBounds(price - low, low);
  }

  /** The range and where the current (last) close sits in it. */
  datatype Placement = Placement(high: real, low: real, fromHigh: real, fromLow: real)

  /** `week52`, `distanceFromHigh` and `distanceFromLow` for positive closes. */
  function PlaceLatest(xs: seq<real>): (p: Placement)
    requires |xs| > 0
    requires forall j :: 0 <= j < |xs| ==> xs[j] > 0.0
    ensures p.high == Week52(xs).high && p.low == Week52(xs).low
    ensures p.high > 0.0 && p.low > 0.0
    ensures 0.0 <= p.fromHigh < 100.0 && p.fromLow >= 0.0
    ensures p.fromHigh == DistanceFromHigh(p.high, xs[|xs| - 1])
    ensures p.fromLow == DistanceFromLow(p.low, xs[|xs| - 1])
  {
    var r := Week52(xs);
    DistancesNonNegative(xs);
    Placement(r.high, r.low, DistanceFromHigh(r.high, xs[|xs| - 1]), DistanceFromLow(r.low, xs[|xs| - 1]))
  }

  lemma PositiveLow(xs: seq<real>)
    requires |xs| > 0
    requires forall j :: 0 <= j < |xs| ==> xs[j] > 0.0
    ensures Week52(xs).low > 0.0
  {
    var low := Week52(xs).low;
    var j :| |xs| - |Recent(xs, TradingYear)| <= j < |xs| && xs[j] == low;
  }

  lemma RatioBounds(a: real, b: real)
    requires b > 0.0 && 0.0 <= a
    ensures a / b * 100.0 >= 0.0
    ensures a < b ==> a / b * 100.0 < 100.0
  {
    FractionBounds(a, b);
  }
}

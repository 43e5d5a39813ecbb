/** `calculateBollingerBands(prices, periods, stdDev)`: the SMA as middle band and
    `middle ± stdDev × σ`, where σ is the population standard deviation of the
    window around the SMA. `Math.sqrt` is the parameter `sqrt`. */
module Bollinger {
  import opened Optional
  import opened RealSeq
  import opened Windows

  datatype Bands = Bands(upper: seq<Option<real>>, middle: seq<Option<real>>, lower: seq<Option<real>>)

  /** `Σ (w[j] - m)²` */
  function SquaredDeviations(w: seq<real>, m: real): (r: real)
    ensures r >= 0.0
    decreases |w|
  {
    if |w| == 0 then 0.0
    else
      var d := w[|w| - 1] - m;
      SquaredDeviations(w[..|w| - 1], m) + d * d
  }

  /** Population variance of the window ending at `i` around the SMA there
      (divides by `p`, not `p - 1`). */
  function Variance(xs: seq<real>, p: nat, i: nat): (v: real)
    requires 0 < p && p - 1 <= i < |xs|
    ensures v >= 0.0
  {
    var w := Window(xs, p, i);
    SquaredDeviations(w, Mean(w)) / (p as real)
  }

  /** Band `middle + side × k × σ` at one index (`side` is 1 or -1). */
  function Band(xs: seq<real>, p: nat, k: real, sqrt: real -> real, i: nat, side: real): Option<real>
    requires p > 0 && i < |xs|
  {
    if i >= p - 1 then Some(Mean(Window(xs, p, i)) + side * (sqrt(Variance(xs, p, i)) * k)) else None
  }

  function BollingerBands(xs: seq<real>, p: nat, k: real, sqrt: real -> real): (r: Bands)
    requires p > 0
    ensures |r.upper| == |r.middle| == |r.lower| == |xs|
    ensures r.middle == Sma(xs, p)
    ensures forall i :: 0 <= i < |xs| ==>
              (r.upper[i].Some? <==> i >= p - 1) && (r.lower[i].Some? <==> i >= p - 1)
    ensures forall i :: p - 1 <= i < |xs| ==>
              r.upper[i].value - r.middle[i].value == r.middle[i].value - r.lower[i].value
    ensures forall i :: p - 1 <= i < |xs| ==>
              r.upper[i].value - r.middle[i].value == k * sqrt(Variance(xs, p, i))
  {
    Bands(seq(|xs|, i requires 0 <= i < |xs| => Band(xs, p, k, sqrt, i, 1.0)),
          Sma(xs, p),
          seq(|xs|, i requires 0 <= i < |xs| => Band(xs, p, k, sqrt, i, -1.0)))
  }

  /** With a non-negative square root and multiplier the bands are ordered. */
  lemma BandsOrdered(xs: seq<real>, p: nat, k: real, sqrt: real -> real)
    requires p > 0 && k >= 0.0
    requires forall v :: v >= 0.0 ==> sqrt(v) >= 0.0
    ensures var r := BollingerBands(xs, p, k, sqrt);
            forall i :: p - 1 <= i < |xs| ==>
              r.lower[i].value <= r.middle[i].value <= r.upper[i].value
  {
    var r := BollingerBands(xs, p, k, sqrt);
    forall i | p - 1 <= i < |xs|
      ensures r.lower[i].value <= r.middle[i].value <= r.upper[i].value
    {
      var s := sqrt(Variance(xs, p, i));
      assert s >= 0.0;
      assert s * k >= 0.0;
    }
  }

  lemma {:induction false} SquaredDeviationsOfConstant(w: seq<real>, c: real)
    requires forall j :: 0 <= j < |w| ==> w[j] == c
    ensures SquaredDeviations(w, c) == 0.0
    decreases |w|
  {
    if |w| > 0 {
      SquaredDeviationsOfConstant(w[..|w| - 1], c);
    }
  }

  /** On a constant series the bands collapse onto the SMA, provided `sqrt(0) = 0`. */
  lemma FlatSeriesZeroWidth(xs: seq<real>, p: nat, k: real, sqrt: real -> real, c: real)
    requires p > 0 && sqrt(0.0) == 0.0
    requires forall j :: 0 <= j < |xs| ==> xs[j] == c
    ensures var r := BollingerBands(xs, p, k, sqrt);
            forall i :: p - 1 <= i < |xs| ==>
              r.upper[i] == r.middle[i] == r.lower[i] == Some(c)
  {
    forall i | p - 1 <= i < |xs|
      ensures Variance(xs, p, i) == 0.0 && Mean(Window(xs, p, i)) == c
    {
      var w := Window(xs, p, i);
      MeanConstant(w, c);
      SquaredDeviationsOfConstant(w, c);
    }
    SmaOfConstant(xs, p, c);
  }

  /** `bbPosition = (price - lower) / (upper - lower) * 100`: undefined when a band
      is undefined or the band has zero width. */
  function BbPosition(price: real, upper: Option<real>, lower: Option<real>): (r: Option<real>)
    ensures r.Some? <==> upper.Some? && lower.Some? && upper.value != lower.value
    ensures r.Some? ==> lower.value + r.value / 100.0 * (upper.value - lower.value) == price
    ensures r.Some? && lower.value < upper.value && lower.value <= price <= upper.value ==>
              0.0 <= r.value <= 100.0
  {
    if upper.Some? && lower.Some? && upper.value != lower.value then
      var w := upper.value - lower.value;
      var pos := (price - lower.value) / w * 100.0;
      assert pos / 100.0 * w == price - lower.value;
      assert lower.value < upper.value && lower.value <= price <= upper.value ==>
               0.0 <= (price - lower.value) / w <= 1.0;
      Some(pos)
    else None
  }
}

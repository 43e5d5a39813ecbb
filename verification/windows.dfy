/** Windowed statistics over an index-aligned series: the simple moving average
    (also used for the 20-day average volume) and the exponential moving average
    (stock_analyzer.js, api-server.js and api/analyze.js each carry a copy). */
module Windows {
  import opened Optional
  import opened RealSeq

  /** The trailing window of `p` values ending at index `i`. */
  function Window(xs: seq<real>, p: nat, i: nat): (w: seq<real>)
    requires 0 < p && p - 1 <= i < |xs|
    ensures |w| == p
    ensures forall k :: 0 <= k < p ==> w[k] == xs[i - p + 1 + k]
  {
    xs[i - p + 1 .. i + 1]
  }

  /** `calculateSMA(xs, p)`: slots before `p - 1` stay undefined; slot `i` is the
      mean of the `p` values ending there. */
  function Sma(xs: seq<real>, p: nat): (r: seq<Option<real>>)
    requires p > 0
    ensures |r| == |xs|
    ensures forall i :: 0 <= i < |xs| ==> (r[i].Some? <==> i >= p - 1)
  {
    seq(|xs|, i requires 0 <= i < |xs| =>
      if i >= p - 1 then Some(Mean(Window(xs, p, i))) else None)
  }

  /** A defined SMA slot lies within any bounds of the values in its window. */
  lemma SmaWithinWindow(xs: seq<real>, p: nat, i: nat, lo: real, hi: real)
    requires p > 0 && p - 1 <= i < |xs|
    requires forall j :: i - p + 1 <= j <= i ==> lo <= xs[j] <= hi
    ensures Sma(xs, p)[i].Some?
    ensures lo <= Sma(xs, p)[i].value <= hi
  {
    MeanBounds(Window(xs, p, i), lo, hi);
  }

  /** On a constant series every defined SMA slot is that constant. */
  lemma SmaOfConstant(xs: seq<real>, p: nat, c: real)
    requires p > 0
    requires forall j :: 0 <= j < |xs| ==> xs[j] == c
    ensures forall i :: p - 1 <= i < |xs| ==> Sma(xs, p)[i] == Some(c)
  {
    forall i | p - 1 <= i < |xs|
      ensures Sma(xs, p)[i] == Some(c)
    {
      MeanConstant(Window(xs, p, i), c);
    }
  }

  /** The EMA smoothing factor `2 / (p + 1)`, which lies in (0, 1]. */
  function Multiplier(p: nat): (a: real)
    requires p > 0
    ensures 0.0 < a <= 1.0
  {
    2.0 / (p as real + 1.0)
  }

  /** Value of `calculateEMA(xs, p)` at `i >= p - 1`: seeded with the mean of the
      first `p` values, then `(x - prev) * multiplier + prev`. */
  function EmaAt(xs: seq<real>, p: nat, i: nat): (r: real)
    requires 0 < p && p - 1 <= i < |xs|
    ensures i == p - 1 ==> Sma(xs, p)[i] == Some(r)
    decreases i
  {
    if i == p - 1 then
      assert Window(xs, p, p - 1) == xs[..p];
      Mean(xs[..p])
    else
      var prev := EmaAt(xs, p, i - 1);
      (xs[i] - prev) * Multiplier(p) + prev
  }

  /** `calculateEMA(xs, p)` as an index-aligned array. When `xs` is shorter than
      `p` the source stores a NaN seed at index `p - 1`, outside the series; no
      caller reads it, so every slot here is undefined. */
  function Ema(xs: seq<real>, p: nat): (r: seq<Option<real>>)
    requires p > 0
    ensures |r| == |xs|
    ensures forall i :: 0 <= i < |xs| ==> (r[i].Some? <==> i >= p - 1)
  {
    seq(|xs|, i requires 0 <= i < |xs| =>
      if i >= p - 1 then Some(EmaAt(xs, p, i)) else None)
  }

  /** The EMA seed coincides with the SMA at index `p - 1`. */
  lemma EmaSeedIsSma(xs: seq<real>, p: nat)
    requires 0 < p <= |xs|
    ensures Ema(xs, p)[p - 1] == Sma(xs, p)[p - 1]
    ensures Ema(xs, p)[p - 1].Some?
  {
    assert Window(xs, p, p - 1) == xs[..p];
  }

  /** Each EMA step is a convex combination of the previous EMA and the new value. */
  lemma EmaStepIsConvex(xs: seq<real>, p: nat, i: nat)
    requires 0 < p && p - 1 < i < |xs|
    ensures EmaAt(xs, p, i)
         == Multiplier(p) * xs[i] + (1.0 - Multiplier(p)) * EmaAt(xs, p, i - 1)
  {
    var prev := EmaAt(xs, p, i - 1);
    var a := Multiplier(p);
    assert EmaAt(xs, p, i) == (xs[i] - prev) * a + prev;
    StepIsConvex(a, xs[i], prev);
  }

  /** The EMA never leaves any bounds of the values seen so far. */
  lemma {:induction false} EmaWithinRange(xs: seq<real>, p: nat, i: nat, lo: real, hi: real)
    requires 0 < p && p - 1 <= i < |xs|
    requires forall j :: 0 <= j <= i ==> lo <= xs[j] <= hi
    ensures lo <= EmaAt(xs, p, i) <= hi
    decreases i
  {
    if i == p - 1 {
      MeanBounds(xs[..p], lo, hi);
    } else {
      EmaWithinRange(xs, p, i - 1, lo, hi);
      EmaStepBetween(xs, p, i, lo, hi);
    }
  }

  /** One EMA step stays within bounds that hold the previous EMA and the new value. */
  lemma EmaStepBetween(xs: seq<real>, p: nat, i: nat, lo: real, hi: real)
    requires 0 < p && p - 1 < i < |xs|
    requires lo <= xs[i] <= hi && lo <= EmaAt(xs, p, i - 1) <= hi
    ensures lo <= EmaAt(xs, p, i) <= hi
  {
    EmaStepIsConvex(xs, p, i);
    ConvexBetween(Multiplier(p), xs[i], EmaAt(xs, p, i - 1), lo, hi);
  }

  /** The update `(x - e) * a + e` is the convex combination `a * x + (1 - a) * e`. */
  lemma StepIsConvex(a: real, x: real, e: real)
    ensures (x - e) * a + e == a * x + (1.0 - a) * e
  {
  }

  lemma ConvexBetween(a: real, x: real, e: real, lo: real, hi: real)
    requires 0.0 <= a <= 1.0
    requires lo <= x <= hi && lo <= e <= hi
    ensures lo <= a * x + (1.0 - a) * e <= hi
  {
    assert a * (x - lo) >= 0.0;
    assert (1.0 - a) * (e - lo) >= 0.0;
    assert a * (hi - x) >= 0.0;
    assert (1.0 - a) * (hi - e) >= 0.0;
  }

  /** The EMA stays between the minimum and maximum of `xs[0..i]`. */
  lemma EmaBetweenMinMax(xs: seq<real>, p: nat, i: nat)
    requires 0 < p && p - 1 <= i < |xs|
    ensures MinOf(xs[..i + 1]) <= EmaAt(xs, p, i) <= MaxOf(xs[..i + 1])
  {
    var pre := xs[..i + 1];
    assert forall j :: 0 <= j <= i ==> xs[j] == pre[j];
    EmaWithinRange(xs, p, i, MinOf(pre), MaxOf(pre));
  }
}

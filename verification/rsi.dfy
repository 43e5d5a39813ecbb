/** `calculateRSI(prices, periods)`: at every index `i >= p` a fresh scan over the
    `p` one-step changes ending at `i` (no Wilder smoothing carried between
    indices), then `100 - 100 / (1 + avgGain / avgLoss)`. */
module RelativeStrength {
  import opened Optional
  import opened RealSeq

  /** Upward part of one change: `change > 0 ? change : 0`. */
  function Gain(c: real): real
  {
    if c > 0.0 then c else 0.0
  }

  /** Downward part of one change: `Math.abs(change)` in the `else` branch. */
  function Loss(c: real): real
  {
    if c > 0.0 then 0.0 else Abs(c)
  }

  /** Sum of the gains of the changes `xs[j + 1] - xs[j]` for `lo <= j < hi`. */
  function Gains(xs: seq<real>, lo: nat, hi: nat): (g: real)
    requires lo <= hi < |xs|
    ensures g >= 0.0
    decreases hi - lo
  {
    if hi == lo then 0.0 else Gains(xs, lo, hi - 1) + Gain(xs[hi] - xs[hi - 1])
  }

  /** Sum of the losses of the changes `xs[j + 1] - xs[j]` for `lo <= j < hi`. */
  function Losses(xs: seq<real>, lo: nat, hi: nat): (l: real)
    requires lo <= hi < |xs|
    ensures l >= 0.0
    decreases hi - lo
  {
    if hi == lo then 0.0 else Losses(xs, lo, hi - 1) + Loss(xs[hi] - xs[hi - 1])
  }

  /** The RSI of one window from its summed gains and losses. A window with losses
      but no gains gives `rs = 0` and RSI 0; gains without losses give
      `rs = Infinity` and RSI exactly 100; a window that never moved gives
      `0 / 0 = NaN`, which is undefined here. */
  function RsiFrom(gains: real, losses: real, p: nat): (r: Option<real>)
    requires p > 0 && gains >= 0.0 && losses >= 0.0
    ensures r.None? <==> gains == 0.0 && losses == 0.0
    ensures gains > 0.0 && losses == 0.0 ==> r == Some(100.0)
    ensures gains == 0.0 && losses > 0.0 ==> r == Some(0.0)
    ensures gains + losses > 0.0 ==> r == Some(100.0 * gains / (gains + losses))
    ensures r.Some? ==> 0.0 <= r.value <= 100.0
    ensures gains > 0.0 && losses > 0.0 ==> 0.0 < r.value < 100.0
  {
    var n := p as real;
    var avgGain := gains / n;
    var avgLoss := losses / n;
    if losses == 0.0 then
      assert avgLoss == 0.0;
      if gains == 0.0 then None
      else
        assert gains + losses == gains && 100.0 * gains / gains == 100.0;
        Some(100.0)
    else
      assert avgLoss != 0.0;
      var rs := avgGain / avgLoss;
      RatioForm(gains, losses, n);
      Some(100.0 - 100.0 / (1.0 + rs))
  }

  /** `100 - 100 / (1 + (g/n) / (l/n))` is `100 g / (g + l)`. */
  lemma RatioForm(g: real, l: real, n: real)
    requires g >= 0.0 && l > 0.0 && n > 0.0
    ensures 1.0 + (g / n) / (l / n) > 0.0
    ensures 100.0 - 100.0 / (1.0 + (g / n) / (l / n)) == 100.0 * g / (g + l)
    ensures 0.0 <= 100.0 * g / (g + l) < 100.0
    ensures g > 0.0 ==> 100.0 * g / (g + l) > 0.0
  {
    MeanRatio(g, l, n);
    ShareForm(g, l);
    ShareBounds(g, l);
  }

  /** Dividing both sums by the period leaves their ratio unchanged. */
  lemma MeanRatio(g: real, l: real, n: real)
    requires g >= 0.0 && l > 0.0 && n > 0.0
    ensures (g / n) / (l / n) == g / l
  {
    var a := g / n;
    var b := l / n;
    assert a * n == g && b * n == l;
    assert b > 0.0;
    assert (a / b) * b == a;
    assert (a / b) * l == ((a / b) * b) * n;
    assert (a / b) * l == g;
  }

  lemma ShareForm(g: real, l: real)
    requires g >= 0.0 && l > 0.0
    ensures 1.0 + g / l > 0.0
    ensures 100.0 - 100.0 / (1.0 + g / l) == 100.0 * g / (g + l)
  {
    var d := g + l;
    var t := g / l;
    assert t * l == g;
    assert (1.0 + t) * l == d;
    var u := 100.0 / (1.0 + t);
    assert u * (1.0 + t) == 100.0;
    assert u * d == 100.0 * l by {
      assert u * d == u * ((1.0 + t) * l);
      assert u * ((1.0 + t) * l) == (u * (1.0 + t)) * l;
    }
    assert (100.0 - u) * d == 100.0 * g by {
      assert (100.0 - u) * d == 100.0 * d - u * d;
    }
    assert (100.0 * g / d) * d == 100.0 * g;
    CancelFactor(100.0 - u, 100.0 * g / d, d);
  }

  lemma ShareBounds(g: real, l: real)
    requires g >= 0.0 && l > 0.0
    ensures 0.0 <= 100.0 * g / (g + l) < 100.0
    ensures g > 0.0 ==> 100.0 * g / (g + l) > 0.0
  {
    var d := g + l;
    assert 100.0 * g < 100.0 * d;
    assert (100.0 * g / d) * d == 100.0 * g;
  }

  /** `calculateRSI(xs, p)` as an index-aligned array: undefined before `p`. */
  function Rsi(xs: seq<real>, p: nat): (r: seq<Option<real>>)
    requires p > 0
    ensures |r| == |xs|
    ensures forall i :: 0 <= i < |xs| && i < p ==> r[i].None?
    ensures forall i :: 0 <= i < |xs| && r[i].Some? ==> 0.0 <= r[i].value <= 100.0
  {
    seq(|xs|, i requires 0 <= i < |xs| => RsiSlot(xs, p, i))
  }

  /** Slot `i` of `calculateRSI(xs, p)`. */
  function RsiSlot(xs: seq<real>, p: nat, i: nat): (r: Option<real>)
    requires p > 0 && i < |xs|
    ensures i < p ==> r.None?
    ensures r.Some? ==> 0.0 <= r.value <= 100.0
  {
    if i >= p then RsiFrom(Gains(xs, i - p, i), Losses(xs, i - p, i), p) else None
  }

  /** No gain and no loss over a window means the window never moved. */
  lemma {:induction false} NoMovement(xs: seq<real>, lo: nat, hi: nat)
    requires lo <= hi < |xs|
    ensures (Gains(xs, lo, hi) == 0.0 && Losses(xs, lo, hi) == 0.0)
        <==> (forall j :: lo <= j < hi ==> xs[j + 1] == xs[j])
    decreases hi - lo
  {
    if hi > lo {
      NoMovement(xs, lo, hi - 1);
    }
  }

  /** RSI is undefined (NaN) at a valid index exactly when its window is flat. */
  lemma RsiUndefinedIffFlat(xs: seq<real>, p: nat, i: nat)
    requires 0 < p <= i < |xs|
    ensures Rsi(xs, p)[i].None? <==> (forall j :: i - p <= j < i ==> xs[j + 1] == xs[j])
  {
    NoMovement(xs, i - p, i);
  }

  /** Over rising closes the losses are zero and the gains positive. */
  lemma {:induction false} RisingWindow(xs: seq<real>, lo: nat, hi: nat)
    requires lo < hi < |xs|
    requires forall j :: lo <= j < hi ==> xs[j] < xs[j + 1]
    ensures Losses(xs, lo, hi) == 0.0 && Gains(xs, lo, hi) > 0.0
    decreases hi - lo
  {
    if hi - 1 > lo {
      RisingWindow(xs, lo, hi - 1);
    }
  }

  /** Over falling closes the gains are zero and the losses positive. */
  lemma {:induction false} FallingWindow(xs: seq<real>, lo: nat, hi: nat)
    requires lo < hi < |xs|
    requires forall j :: lo <= j < hi ==> xs[j] > xs[j + 1]
    ensures Gains(xs, lo, hi) == 0.0 && Losses(xs, lo, hi) > 0.0
    decreases hi - lo
  {
    if hi - 1 > lo {
      FallingWindow(xs, lo, hi - 1);
    }
  }

  /** A strictly rising series saturates RSI at 100 at every valid index. */
  lemma RsiOfRisingSeries(xs: seq<real>, p: nat)
    requires p > 0
    requires forall j :: 0 <= j < |xs| - 1 ==> xs[j] < xs[j + 1]
    ensures forall i :: p <= i < |xs| ==> Rsi(xs, p)[i] == Some(100.0)
  {
    forall i | p <= i < |xs|
      ensures Rsi(xs, p)[i] == Some(100.0)
    {
      RisingWindow(xs, i - p, i);
    }
  }

  /** A strictly falling series gives RSI 0 at every valid index. */
  lemma RsiOfFallingSeries(xs: seq<real>, p: nat)
    requires p > 0
    requires forall j :: 0 <= j < |xs| - 1 ==> xs[j] > xs[j + 1]
    ensures forall i :: p <= i < |xs| ==> Rsi(xs, p)[i] == Some(0.0)
  {
    forall i | p <= i < |xs|
      ensures Rsi(xs, p)[i] == Some(0.0)
    {
      FallingWindow(xs, i - p, i);
    }
  }
}

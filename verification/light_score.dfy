/** The additive score of api/analyze.js: eight rules each add or subtract a
    fixed number of points, with no clamping. The volume ratio and the 52-week
    distances are compared after `toFixed(2)`, modelled by `Round2`. */
module LightScore {
  import opened Optional
  import opened RealSeq
  import opened Recommendation

  /** What one rule adds to `score`, and the signal it pushes, if any. */
  datatype Contribution = Contribution(points: int, tag: Option<string>)

  /** `Number(x.toFixed(2))`: half-up rounding of `|x|` to two decimals, sign
      restored. */
  function Round2(x: real): (r: real)
    ensures -0.005 <= r - x <= 0.005
    ensures x >= 0.0 ==> r >= 0.0
  {
    var m := Abs(x) * 100.0 + 0.5;
    var q := (m.Floor as real) / 100.0;
    assert (m.Floor as real) <= m < (m.Floor as real) + 1.0;
    if x < 0.0 then -q else q
  }

  /** `toFixed(2)` of an undefined or NaN quotient is `"NaN"`, which stays NaN. */
  function Round2Slot(x: Option<real>): (r: Option<real>)
    ensures r.Some? <==> x.Some?
    ensures r.Some? ==> r.value == Round2(x.value)
  {
    if x.Some? then Some(Round2(x.value)) else None
  }

  /** Rounding never reorders two values. */
  lemma Round2Monotone(x: real, y: real)
    requires x <= y
    ensures Round2(x) <= Round2(y)
  {
    var mx := Abs(x) * 100.0 + 0.5;
    var my := Abs(y) * 100.0 + 0.5;
    if 0.0 <= x {
      assert mx <= my;
      assert mx.Floor <= my.Floor;
    } else if y < 0.0 {
      assert my <= mx;
      assert my.Floor <= mx.Floor;
    }
  }

  /** Comparing after rounding agrees with comparing the exact value except within
      half a cent of the threshold. */
  lemma Round2Threshold(x: real, t: real)
    ensures x > t + 0.005 ==> Round2(x) > t
    ensures Round2(x) > t ==> x >= t - 0.005
  {
  }

  /** RSI: `< 30` adds 25 ("RSI Oversold"), otherwise `> 70` subtracts 15 ("RSI
      Overbought"); an undefined RSI contributes nothing. */
  function RsiRule(rsi: Option<real>): (c: Contribution)
    ensures c.points > 0 <==> Below(rsi, 30.0)
    ensures c.points < 0 <==> Above(rsi, 70.0)
    ensures rsi.None? ==> c == Contribution(0, None)
    ensures c.points == 25 || c.points == -15 || c.points == 0
    ensures c.tag.Some? <==> c.points != 0
  {
    if Below(rsi, 30.0) then Contribution(25, Some("RSI Oversold"))
    else if Above(rsi, 70.0) then Contribution(-15, Some("RSI Overbought"))
    else Contribution(0, None)
  }

  /** MACD line above zero adds 20 ("Positive MACD"). */
  function MacdRule(macd: Option<real>): (c: Contribution)
    ensures c.points == 20 <==> macd.Some? && macd.value > 0.0
    ensures c.points == 20 || c == Contribution(0, None)
    ensures c.tag.Some? <==> c.points != 0
  {
    if Above(macd, 0.0) then Contribution(20, Some("Positive MACD")) else Contribution(0, None)
  }

  /** Price above both the 20- and the 50-day SMA adds 20 ("Above Short-term MAs"). */
  function ShortAveragesRule(price: real, sma20: Option<real>, sma50: Option<real>): (c: Contribution)
    ensures c.points == 20 <==> sma20.Some? && sma50.Some? && price > sma20.value && price > sma50.value
    ensures c.points == 20 || c == Contribution(0, None)
    ensures c.tag.Some? <==> c.points != 0
  {
    if Gt(Some(price), sma20) && Gt(Some(price), sma50) then Contribution(20, Some("Above Short-term MAs"))
    else Contribution(0, None)
  }

  /** SMA20 over SMA50 over SMA200 adds 15 ("Long-term Uptrend"). */
  function UptrendRule(sma20: Option<real>, sma50: Option<real>, sma200: Option<real>): (c: Contribution)
    ensures c.points == 15 <==> Gt(sma20, sma50) && Gt(sma50, sma200)
    ensures c.points == 15 ==> sma20.value > sma200.value
    ensures c.points == 15 || c == Contribution(0, None)
    ensures c.tag.Some? <==> c.points != 0
  {
    if Gt(sma20, sma50) && Gt(sma50, sma200) then Contribution(15, Some("Long-term Uptrend"))
    else Contribution(0, None)
  }

  /** A (rounded) volume ratio above 1.2 adds 10 ("High Volume"). */
  function VolumeRule(ratio: Option<real>): (c: Contribution)
    ensures c.points == 10 <==> Above(ratio, 1.2)
    ensures c.points == 10 || c == Contribution(0, None)
    ensures c.tag.Some? <==> c.points != 0
  {
    if Above(ratio, 1.2) then Contribution(10, Some("High Volume")) else Contribution(0, None)
  }

  /** Bollinger position `< 20` adds 15 ("Near Lower BB"); `> 80` subtracts 10
      and pushes no signal. */
  function BandsRule(pos: Option<real>): (c: Contribution)
    ensures c.points > 0 <==> Below(pos, 20.0)
    ensures c.points < 0 <==> Above(pos, 80.0)
    ensures c.points == 15 || c.points == -10 || c.points == 0
    ensures c.tag.Some? <==> c.points > 0
  {
    if Below(pos, 20.0) then Contribution(15, Some("Near Lower BB"))
    else if Above(pos, 80.0) then Contribution(-10, None)
    else Contribution(0, None)
  }

  /** A truthy support with the price at most 2% above it adds 10 ("Near
      Support"); a missing (`null`) or zero support never does. */
  function SupportRule(price: real, support: Option<real>): (c: Contribution)
    ensures c.points == 10 <==> Truthy(support) && price <= support.value * 1.02
    ensures !Truthy(support) ==> c == Contribution(0, None)
    ensures c.points == 10 || c == Contribution(0, None)
    ensures c.tag.Some? <==> c.points != 0
  {
    if Truthy(support) && price <= support.value * 1.02 then Contribution(10, Some("Near Support"))
    else Contribution(0, None)
  }

  /** More than 5% above the low and more than 30% below the high (both rounded)
      adds 10 ("Recovery Potential"). */
  function RecoveryRule(distanceFromLow: real, distanceFromHigh: real): (c: Contribution)
    ensures c.points == 10 <==> distanceFromLow > 5.0 && distanceFromHigh > 30.0
    ensures c.points == 10 || c == Contribution(0, None)
    ensures c.tag.Some? <==> c.points != 0
  {
    if distanceFromLow > 5.0 && distanceFromHigh > 30.0 then Contribution(10, Some("Recovery Potential"))
    else Contribution(0, None)
  }

  /** The eight rules in source order. */
  function Rules(r: Reading, support: Option<real>): (cs: seq<Contribution>)
    ensures |cs| == 8
  {
    [ RsiRule(r.rsi),
      MacdRule(r.macd),
      ShortAveragesRule(r.price, r.sma20, r.sma50),
      UptrendRule(r.sma20, r.sma50, r.sma200),
      VolumeRule(r.volumeRatio),
      BandsRule(r.bbPosition),
      SupportRule(r.price, support),
      RecoveryRule(r.distanceFromLow, r.distanceFromHigh) ]
  }

  /** `score`: the sum of the contributions, starting from 0. */
  function Total(cs: seq<Contribution>): (t: int)
    ensures (forall k :: 0 <= k < |cs| ==> cs[k].points % 5 == 0) ==> t % 5 == 0
    decreases |cs|
  {
    if |cs| == 0 then 0
    else
      var init := cs[..|cs| - 1];
      assert forall k :: 0 <= k < |init| ==> init[k] == cs[k];
      Total(init) + cs[|cs| - 1].points
  }

  /** The total of eight rules is the sum of the eight contributions. */
  lemma TotalOfEight(cs: seq<Contribution>)
    requires |cs| == 8
    ensures Total(cs) == cs[0].points + cs[1].points + cs[2].points + cs[3].points
                       + cs[4].points + cs[5].points + cs[6].points + cs[7].points
  {
    forall k | 1 <= k <= 8
      ensures Total(cs[..k]) == Total(cs[..k - 1]) + cs[k - 1].points
    {
      assert cs[..k][..k - 1] == cs[..k - 1];
    }
    assert cs[..0] == [];
    assert cs[..8] == cs;
  }

  /** The unclamped score is a multiple of 5 between -25 and 125. */
  lemma ScoreRange(r: Reading, support: Option<real>)
    ensures var s := Total(Rules(r, support));
            -25 <= s <= 125 && s % 5 == 0
  {
    var cs := Rules(r, support);
    TotalOfEight(cs);
    assert -15 <= cs[0].points <= 25 && 0 <= cs[1].points <= 20;
    assert 0 <= cs[2].points <= 20 && 0 <= cs[3].points <= 15;
    assert 0 <= cs[4].points <= 10 && -10 <= cs[5].points <= 15;
    assert 0 <= cs[6].points <= 10 && 0 <= cs[7].points <= 10;
    forall k | 0 <= k < 8
      ensures cs[k].points % 5 == 0
    {
    }
  }

  /** The lower bound is reached: an overbought RSI and a price high in the
      Bollinger band with nothing else in favour. */
  lemma ScoreLowerBoundReached(r: Reading, support: Option<real>)
    requires r.rsi == Some(80.0) && r.bbPosition == Some(90.0)
    requires r.macd.None? && r.sma20.None? && r.volumeRatio.None? && support.None?
    requires r.distanceFromHigh <= 30.0
    ensures Total(Rules(r, support)) == -25
  {
    TotalOfEight(Rules(r, support));
  }

  /** The additive result: score, advice and the joined signal list. */
  datatype Outcome = Outcome(score: int, advice: Advice, signals: string)

  function Evaluate(r: Reading, support: Option<real>): (o: Outcome)
    ensures -25 <= o.score <= 125 && o.score % 5 == 0
    ensures o.score < 0 ==> o.advice == AvoidBuying
    ensures o.advice == Recommend(o.score as real)
  {
    var cs := Rules(r, support);
    ScoreRange(r, support);
    var score := Total(cs);
    Outcome(score, Recommend(score as real),
            SignalText(Present(seq(8, k requires 0 <= k < 8 => cs[k].tag))))
  }
}

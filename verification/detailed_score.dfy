/** The eight-factor buy-signal score of stock_analyzer.js and api-server.js.
    Each factor earns no, half or full credit; `score = credits / 8 * 100`. The
    api-server.js copy also emits a signal tag per factor, and its Bollinger
    factor draws the half-credit band differently. */
module DetailedScore {
  import opened Optional
  import opened RealSeq
  import opened Bars
  import opened Levels
  import opened Recommendation

  datatype Credit = NoCredit | HalfCredit | FullCredit

  /** What one factor adds to `buySignals`. */
  function Value(c: Credit): real
  {
    match c
    case NoCredit => 0.0
    case HalfCredit => 0.5
    case FullCredit => 1.0
  }

  /** A factor's credit and the signal tag api-server.js pushes for it, if any. */
  datatype Factor = Factor(credit: Credit, tag: Option<string>)

  /** The two Bollinger credit rules: stock_analyzer.js withholds credit only
      above 80; api-server.js gives half credit only up to 60. */
  datatype BandRule = CommandLineBands | ServerBands

  /** `const totalSignals = 8` */
  const TotalSignals: nat := 8

  /** RSI: `< 30` full ("RSI Oversold"), `< 40` half ("RSI Low"). */
  function RsiFactor(rsi: Option<real>): (f: Factor)
    ensures f.credit == FullCredit <==> Below(rsi, 30.0)
    ensures f.credit == HalfCredit <==> rsi.Some? && 30.0 <= rsi.value < 40.0
    ensures f.tag.Some? <==> f.credit != NoCredit
  {
    if Below(rsi, 30.0) then Factor(FullCredit, Some("RSI Oversold"))
    else if Below(rsi, 40.0) then Factor(HalfCredit, Some("RSI Low"))
    else Factor(NoCredit, None)
  }

  /** MACD: a crossover (above the signal now, not above it before) earns full
      credit ("MACD Bullish Crossover"); merely above earns half ("MACD Bullish"). */
  function MacdFactor(macd: Option<real>, signal: Option<real>,
                      prevMacd: Option<real>, prevSignal: Option<real>): (f: Factor)
    ensures f.credit == NoCredit <==> !Gt(macd, signal)
    ensures f.credit == FullCredit <==> Gt(macd, signal) && Le(prevMacd, prevSignal)
    ensures prevSignal.None? || prevMacd.None? ==> f.credit != FullCredit
    ensures f.tag.Some? <==> f.credit != NoCredit
  {
    if Gt(macd, signal) && Le(prevMacd, prevSignal) then Factor(FullCredit, Some("MACD Bullish Crossover"))
    else if Gt(macd, signal) then Factor(HalfCredit, Some("MACD Bullish"))
    else Factor(NoCredit, None)
  }

  /** Moving-average trend: price over SMA20 over SMA50 is full credit ("Strong
      Uptrend"), price under SMA20 under SMA50 is none, anything else (including
      an undefined SMA) is "mixed" and earns half. */
  function TrendFactor(price: real, sma20: Option<real>, sma50: Option<real>): (f: Factor)
    ensures f.credit == FullCredit <==> Gt(Some(price), sma20) && Gt(sma20, sma50)
    ensures f.credit == NoCredit <==> Lt(Some(price), sma20) && Lt(sma20, sma50)
    ensures sma20.None? || sma50.None? ==> f.credit == HalfCredit
    ensures f.tag.Some? <==> f.credit == FullCredit
  {
    if Gt(Some(price), sma20) && Gt(sma20, sma50) then Factor(FullCredit, Some("Strong Uptrend"))
    else if !(Lt(Some(price), sma20) && Lt(sma20, sma50)) then Factor(HalfCredit, None)
    else Factor(NoCredit, None)
  }

  /** Price over the 200-day SMA: full credit ("Long-term Uptrend"). */
  function LongTrendFactor(price: real, sma200: Option<real>): (f: Factor)
    ensures f.credit != HalfCredit
    ensures f.credit == FullCredit <==> sma200.Some? && price > sma200.value
    ensures f.tag.Some? <==> f.credit == FullCredit
  {
    if Gt(Some(price), sma200) then Factor(FullCredit, Some("Long-term Uptrend"))
    else Factor(NoCredit, None)
  }

  /** Bollinger position: `< 20` full ("Near Lower BB"), `< 40` half, then the
      copy's rule decides the rest. */
  function BandsFactor(rule: BandRule, pos: Option<real>): (f: Factor)
    ensures f.credit == FullCredit <==> Below(pos, 20.0)
    ensures rule == CommandLineBands ==> (f.credit == NoCredit <==> Above(pos, 80.0))
    ensures rule == ServerBands ==> (f.credit == NoCredit <==> !(pos.Some? && pos.value <= 60.0))
    ensures f.tag.Some? <==> f.credit == FullCredit
  {
    if Below(pos, 20.0) then Factor(FullCredit, Some("Near Lower BB"))
    else if Below(pos, 40.0) then Factor(HalfCredit, None)
    else
      match rule
      case CommandLineBands =>
        if Above(pos, 80.0) then Factor(NoCredit, None) else Factor(HalfCredit, None)
      case ServerBands =>
        if pos.Some? && pos.value <= 60.0 then Factor(HalfCredit, None) else Factor(NoCredit, None)
  }

  /** The two Bollinger rules disagree exactly when the position is undefined
      (NaN falls to the command line's final `else`) or lies in (60, 80]. */
  lemma BandRulesDiffer(pos: Option<real>)
    ensures BandsFactor(CommandLineBands, pos).credit != BandsFactor(ServerBands, pos).credit
        <==> pos.None? || 60.0 < pos.value <= 80.0
  {
  }

  /** Volume: ratio `> 1.2` full ("High Volume"), `> 0.8` half. */
  function VolumeFactor(ratio: Option<real>): (f: Factor)
    ensures f.credit == FullCredit <==> Above(ratio, 1.2)
    ensures f.credit == NoCredit <==> !Above(ratio, 0.8)
    ensures f.tag.Some? <==> f.credit == FullCredit
  {
    if Above(ratio, 1.2) then Factor(FullCredit, Some("High Volume"))
    else if Above(ratio, 0.8) then Factor(HalfCredit, None)
    else Factor(NoCredit, None)
  }

  /** 52-week position: more than 20% below the high is full credit ("Far from
      High"), more than 10% half. */
  function RangeFactor(distanceFromHigh: real): (f: Factor)
    ensures f.credit == FullCredit <==> distanceFromHigh > 20.0
    ensures f.credit == NoCredit <==> distanceFromHigh <= 10.0
    ensures f.tag.Some? <==> f.credit == FullCredit
  {
    if distanceFromHigh > 20.0 then Factor(FullCredit, Some("Far from High"))
    else if distanceFromHigh > 10.0 then Factor(HalfCredit, None)
    else Factor(NoCredit, None)
  }

  /** `Math.abs(currentPrice - level) / currentPrice < 0.02` */
  predicate Near(price: Price, level: real)
  {
    Abs(price - level) / price < 0.02
  }

  /** `levels.some(l => Near(price, l.price))` */
  function AnyNear(price: Price, levels: seq<Level>): (b: bool)
    ensures b <==> exists l :: l in levels && Near(price, l.price)
    decreases |levels|
  {
    if |levels| == 0 then false
    else
      assert forall l :: l in levels ==> l == levels[0] || l in levels[1..];
      Near(price, levels[0].price) || AnyNear(price, levels[1..])
  }

  /** Support/resistance: near a support is full credit ("Near Support") even when
      a resistance is also near; near only a resistance is none; neither is half. */
  function SupportFactor(price: Price, levels: LevelLists): (f: Factor)
    ensures f.credit == FullCredit <==> exists l :: l in levels.support && Near(price, l.price)
    ensures f.credit == NoCredit <==>
              && (forall l :: l in levels.support ==> !Near(price, l.price))
              && (exists l :: l in levels.resistance && Near(price, l.price))
    ensures f.tag.Some? <==> f.credit == FullCredit
  {
    if AnyNear(price, levels.support) then Factor(FullCredit, Some("Near Support"))
    else if !AnyNear(price, levels.resistance) then Factor(HalfCredit, None)
    else Factor(NoCredit, None)
  }

  /** The eight factors in the order both copies evaluate them. */
  function Factors(rule: BandRule, r: Reading, levels: LevelLists): (fs: seq<Factor>)
    ensures |fs| == TotalSignals
  {
    [ RsiFactor(r.rsi),
      MacdFactor(r.macd, r.signal, r.prevMacd, r.prevSignal),
      TrendFactor(r.price, r.sma20, r.sma50),
      LongTrendFactor(r.price, r.sma200),
      BandsFactor(rule, r.bbPosition),
      VolumeFactor(r.volumeRatio),
      RangeFactor(r.distanceFromHigh),
      SupportFactor(r.price, levels) ]
  }

  /** Only the RSI and MACD factors tag a half credit; every other factor is
      tagged exactly when it earns full credit. */
  lemma TagsMarkCredit(rule: BandRule, r: Reading, levels: LevelLists, k: nat)
    requires k < TotalSignals
    ensures var f := Factors(rule, r, levels)[k];
            f.tag.Some? <==> f.credit == FullCredit || (k <= 1 && f.credit == HalfCredit)
  {
  }

  /** `buySignals`: the running sum of the factor credits. */
  function Credits(fs: seq<Factor>): real
    decreases |fs|
  {
    if |fs| == 0 then 0.0 else Credits(fs[..|fs| - 1]) + Value(fs[|fs| - 1].credit)
  }

  lemma {:induction false} CreditsAppend(a: seq<Factor>, b: seq<Factor>)
    ensures Credits(a + b) == Credits(a) + Credits(b)
    decreases |b|
  {
    if |b| == 0 {
      assert a + b == a;
    } else {
      assert (a + b)[..|a + b| - 1] == a + b[..|b| - 1];
      CreditsAppend(a, b[..|b| - 1]);
    }
  }

  /** Credits counted in halves, an independent integer measure. */
  function Halves(fs: seq<Factor>): (n: nat)
    ensures n <= 2 * |fs|
    decreases |fs|
  {
    if |fs| == 0 then 0
    else
      Halves(fs[..|fs| - 1])
      + (match fs[|fs| - 1].credit case NoCredit => 0 case HalfCredit => 1 case FullCredit => 2)
  }

  lemma {:induction false} CreditsAreHalves(fs: seq<Factor>)
    ensures Credits(fs) == Halves(fs) as real / 2.0
    decreases |fs|
  {
    if |fs| > 0 {
      CreditsAreHalves(fs[..|fs| - 1]);
    }
  }

  /** `(buySignals / totalSignals) * 100` */
  function Score(fs: seq<Factor>): (s: real)
    ensures s == Halves(fs) as real * 6.25
    ensures |fs| <= TotalSignals ==> 0.0 <= s <= 100.0
  {
    CreditsAreHalves(fs);
    Credits(fs) / (TotalSignals as real) * 100.0
  }

  /** The score is a whole number of sixteenths of 100, so it lies in [0, 100]. */
  lemma ScoreGrid(rule: BandRule, r: Reading, levels: LevelLists)
    ensures var fs := Factors(rule, r, levels);
            && Score(fs) == Halves(fs) as real * 6.25
            && Halves(fs) <= 16
            && 0.0 <= Score(fs) <= 100.0
  {
    var fs := Factors(rule, r, levels);
    CreditsAreHalves(fs);
  }

  /** Six of the eight credits already reach STRONG BUY. */
  lemma SixCreditsIsStrongBuy(fs: seq<Factor>)
    requires Credits(fs) == 6.0
    ensures Recommend(Score(fs)) == StrongBuy
  {
  }

  /** The tags pushed, in factor order. */
  function Tags(fs: seq<Factor>): seq<string>
  {
    Present(seq(|fs|, k requires 0 <= k < |fs| => fs[k].tag))
  }

  /** The tags of the first factors come before those of the later ones. */
  lemma TagsFollowFactorOrder(fs: seq<Factor>, i: nat)
    requires i <= |fs|
    ensures Tags(fs) == Tags(fs[..i]) + Tags(fs[i..])
  {
    var all := seq(|fs|, k requires 0 <= k < |fs| => fs[k].tag);
    var front := seq(i, k requires 0 <= k < i => fs[..i][k].tag);
    var back := seq(|fs| - i, k requires 0 <= k < |fs| - i => fs[i..][k].tag);
    assert all == front + back;
    PresentAppend(front, back);
  }

  /** A factor that carries a tag has it in the list, and no factor adds more
      than one, so there are never more tags than factors. */
  lemma TagOfFactorListed(fs: seq<Factor>, k: nat)
    requires k < |fs| && fs[k].tag.Some?
    ensures fs[k].tag.value in Tags(fs)
    ensures |Tags(fs)| <= |fs|
  {
    var all := seq(|fs|, j requires 0 <= j < |fs| => fs[j].tag);
    PresentComplete(all, k);
  }

  /** The detailed result: score, advice and (api-server.js) the tag list. */
  datatype Outcome = Outcome(score: real, advice: Advice, tags: seq<string>)

  function Evaluate(rule: BandRule, r: Reading, levels: LevelLists): (o: Outcome)
    ensures 0.0 <= o.score <= 100.0
    ensures o.advice == Recommend(o.score)
    ensures |o.tags| <= TotalSignals
  {
    var fs := Factors(rule, r, levels);
    ScoreGrid(rule, r, levels);
    Outcome(Score(fs), Recommend(Score(fs)), Tags(fs))
  }

  /** With no RSI, MACD, SMA, Bollinger or volume reading (a short history) the
      comparisons are all false: RSI, MACD, long trend and volume earn nothing,
      the trend is "mixed" and earns half, and the Bollinger factor earns half on
      the command line but nothing on the server. */
  lemma ShortHistoryCredits(rule: BandRule, r: Reading, levels: LevelLists)
    requires r.rsi.None? && r.macd.None? && r.sma20.None? && r.sma200.None?
    requires r.bbPosition.None? && r.volumeRatio.None?
    ensures var fs := Factors(rule, r, levels);
            && fs[0].credit == NoCredit && fs[1].credit == NoCredit
            && fs[2].credit == HalfCredit && fs[3].credit == NoCredit
            && fs[4].credit == (if rule == CommandLineBands then HalfCredit else NoCredit)
            && fs[5].credit == NoCredit
  {
  }

  /** The two copies compute the same factors except the Bollinger one. */
  lemma CopiesDifferOnlyInBands(r: Reading, levels: LevelLists, k: nat)
    requires k < TotalSignals && k != 4
    ensures Factors(CommandLineBands, r, levels)[k] == Factors(ServerBands, r, levels)[k]
  {
  }

  /** Without a Bollinger position the command line credits half a signal that
      the server does not, so its score is 6.25 points higher. */
  lemma MissingPositionGap(r: Reading, levels: LevelLists)
    requires r.bbPosition.None?
    ensures Score(Factors(CommandLineBands, r, levels)) == Score(Factors(ServerBands, r, levels)) + 6.25
  {
    var fc := Factors(CommandLineBands, r, levels);
    var fs := Factors(ServerBands, r, levels);
    assert fc[..4] == fs[..4] && fc[5..] == fs[5..];
    CreditsSplit(fc);
    CreditsSplit(fs);
  }

  /** The credits of eight factors split around the Bollinger factor. */
  lemma CreditsSplit(fs: seq<Factor>)
    requires |fs| == 8
    ensures Credits(fs) == Credits(fs[..4]) + Value(fs[4].credit) + Credits(fs[5..])
  {
    CreditsAppend(fs[..5], fs[5..]);
    assert fs[..5] + fs[5..] == fs;
    assert fs[..5][..4] == fs[..4];
  }
}

/** One ticker's analysis, in the three variants the repository carries: the
    command line (stock_analyzer.js), the Express server (api-server.js) and the
    serverless handler (api/analyze.js). The variant selects the MACD mode, the
    level detector, the way the latest values are read and the scoring profile. */
module Analysis {
  import opened Optional
  import opened RealSeq
  import opened Bars
  import opened Windows
  import opened RelativeStrength
  import opened Macd
  import opened Bollinger
  import opened Range52
  import opened VolumeStats
  import opened Levels
  import opened VolumeLevels
  import opened Recommendation
  import DetailedScore
  import LightScore

  datatype Variant = CommandLine | ApiServer | Serverless

  /** Only the serverless copy drops the signal line. */
  function MacdModeOf(v: Variant): MacdMode
  {
    if v == Serverless then MacdOnly else WithSignal
  }

  /** Bollinger credit rule of the two detailed copies. */
  function BandRuleOf(v: Variant): DetailedScore.BandRule
  {
    if v == CommandLine then DetailedScore.CommandLineBands else DetailedScore.ServerBands
  }

  /** Periods and multiplier every copy passes. */
  const RsiPeriod: nat := 14
  const BandPeriod: nat := 20
  const BandWidth: real := 2.0
  const VolumePeriod: nat := 20

  /** `sma[latestIndex]`: the mean of the last `p` closes, once there are `p`. */
  function LatestSma(closes: seq<real>, p: nat): (r: Option<real>)
    requires p > 0 && |closes| > 0
    ensures r.Some? <==> |closes| >= p
    ensures r.Some? ==> r.value == Mean(closes[|closes| - p..])
  {
    var n := |closes|;
    assert n >= p ==> Window(closes, p, n - 1) == closes[n - p..];
    Sma(closes, p)[n - 1]
  }

  /** `avgVolume[latestIndex]` and `currentVolume / avgVolume[latestIndex]`. */
  function LatestVolumeRatio(vols: seq<real>): (r: (Option<real>, Option<real>))
    requires |vols| > 0
    requires forall j :: 0 <= j < |vols| ==> vols[j] >= 0.0
    ensures r.0.Some? <==> |vols| >= VolumePeriod
    ensures r.0.Some? ==> r.0.value >= 0.0
    ensures r.1.Some? <==> r.0.Some? && r.0.value != 0.0
  {
    var avg := AverageVolume(vols, VolumePeriod)[|vols| - 1];
    (avg, VolumeRatio(vols[|vols| - 1], avg))
  }

  /** The latest ratio times the latest 20-day average is the latest volume. */
  lemma LatestVolumeRatioMeaning(vols: seq<real>)
    requires |vols| > 0
    requires forall j :: 0 <= j < |vols| ==> vols[j] >= 0.0
    ensures var r := LatestVolumeRatio(vols);
            r.1.Some? ==> r.1.value * r.0.value == vols[|vols| - 1]
  {
  }

  /** `rsi[latestIndex]`: undefined until more than 14 bars, a percentage after. */
  function LatestRsi(closes: seq<real>): (r: Option<real>)
    requires |closes| > 0
    ensures |closes| <= RsiPeriod ==> r.None?
    ensures r.Some? ==> 0.0 <= r.value <= 100.0
  {
    Rsi(closes, RsiPeriod)[|closes| - 1]
  }

  /** The MACD and signal values at `latestIndex` and `prevIndex`. */
  datatype MacdPair = MacdPair(macd: Option<real>, signal: Option<real>,
                               prevMacd: Option<real>, prevSignal: Option<real>)

  /** With the default periods the latest MACD exists from 26 bars on, the
      previous one from 27, and the signal line needs eight more bars. */
  function LatestMacd(closes: seq<real>): (r: MacdPair)
    requires |closes| > 0
    ensures r.macd.Some? <==> |closes| >= 26
    ensures r.prevMacd.Some? <==> |closes| >= 27
    ensures r.signal.Some? <==> |closes| >= 34
    ensures r.prevSignal.Some? <==> |closes| >= 35
  {
    var n := |closes|;
    var m := MacdFor(WithSignal, closes);
    DefaultMacdStart(closes);
    MacdPair(m.macd[n - 1], m.signal[n - 1], SlotAt(m.macd, n - 2), SlotAt(m.signal, n - 2))
  }

  /** The band edges at `latestIndex` and the price's position between them. */
  datatype BandReading = BandReading(upper: Option<real>, lower: Option<real>, position: Option<real>)

  function LatestBands(closes: seq<real>, sqrt: real -> real): (r: BandReading)
    requires |closes| > 0
    ensures r.upper.Some? <==> |closes| >= BandPeriod
    ensures r.lower.Some? <==> |closes| >= BandPeriod
    ensures r.upper.Some? ==> r.upper.value - Mean(closes[|closes| - BandPeriod..])
                              == Mean(closes[|closes| - BandPeriod..]) - r.lower.value
    ensures r.position.Some? ==> r.upper.Some? && r.lower.Some? && r.upper.value != r.lower.value
  {
    var n := |closes|;
    var bands := BollingerBands(closes, BandPeriod, BandWidth, sqrt);
    assert n >= BandPeriod ==> Window(closes, BandPeriod, n - 1) == closes[n - BandPeriod..];
    BandReading(bands.upper[n - 1], bands.lower[n - 1],
                BbPosition(closes[n - 1], bands.upper[n - 1], bands.lower[n - 1]))
  }

  /** The latest position places the price between the latest band edges:
      0 at the lower edge, 100 at the upper. */
  lemma LatestBandsPosition(closes: seq<real>, sqrt: real -> real)
    requires |closes| > 0
    ensures var r := LatestBands(closes, sqrt);
            r.position.Some? ==>
              r.lower.value + r.position.value / 100.0 * (r.upper.value - r.lower.value)
              == closes[|closes| - 1]
  {
  }

  /** The detailed copies read every indicator at `latestIndex = n - 1` and the
      MACD pair also at `prevIndex = n - 2` (undefined when `n = 1`). */
  function IndexedReading(bars: seq<Bar>, sqrt: real -> real): (r: Reading)
    requires |bars| > 0
    ensures r.price == bars[|bars| - 1].close
    ensures |bars| <= RsiPeriod ==> r.rsi.None?
    ensures r.rsi.Some? ==> 0.0 <= r.rsi.value <= 100.0
    ensures r.bbPosition.Some? ==> |bars| >= 20
    ensures r.high > 0.0 && r.low > 0.0
    ensures 0.0 <= r.distanceFromHigh < 100.0 && r.distanceFromLow >= 0.0
  {
    var n := |bars|;
    var closes := Closes(bars);
    var vols := Volumes(bars);
    var m := LatestMacd(closes);
    var b := LatestBands(closes, sqrt);
    var volume := LatestVolumeRatio(vols);
    var place := PlaceLatest(closes);
    Reading(
      bars[n - 1].close, vols[n - 1], LatestRsi(closes),
      m.macd, m.signal, m.prevMacd, m.prevSignal,
      LatestSma(closes, 20), LatestSma(closes, 50), LatestSma(closes, 200),
      b.upper, b.lower, b.position,
      volume.0, volume.1,
      place.high, place.low, place.fromHigh, place.fromLow)
  }

  /** Which MACD values the detailed copies find defined, by history length. */
  lemma IndexedMacdDefined(bars: seq<Bar>, sqrt: real -> real)
    requires |bars| > 0
    ensures var r := IndexedReading(bars, sqrt);
            && (r.macd.Some? <==> |bars| >= 26)
            && (r.prevMacd.Some? <==> |bars| >= 27)
            && (r.signal.Some? <==> |bars| >= 34)
            && (r.prevSignal.Some? <==> |bars| >= 35)
  {
    IndexedMacdIsLatest(bars, sqrt);
    var closes := Closes(bars);
    assert |closes| == |bars|;
    var m := LatestMacd(closes);
    assert m.macd.Some? <==> |bars| >= 26;
    assert m.signal.Some? <==> |bars| >= 34;
  }

  lemma IndexedMacdIsLatest(bars: seq<Bar>, sqrt: real -> real)
    requires |bars| > 0
    ensures var r := IndexedReading(bars, sqrt);
            var m := LatestMacd(Closes(bars));
            && r.macd == m.macd && r.signal == m.signal
            && r.prevMacd == m.prevMacd && r.prevSignal == m.prevSignal
  {
  }

  /** Which averages the detailed copies find defined, by history length. */
  lemma IndexedAveragesDefined(bars: seq<Bar>, sqrt: real -> real)
    requires |bars| > 0
    ensures var r := IndexedReading(bars, sqrt);
            && (r.sma20.Some? <==> |bars| >= 20)
            && (r.sma50.Some? <==> |bars| >= 50)
            && (r.sma200.Some? <==> |bars| >= 200)
            && (r.upper.Some? <==> |bars| >= 20)
            && (r.avgVolume.Some? <==> |bars| >= 20)
            && (r.volumeRatio.Some? <==> r.avgVolume.Some? && r.avgVolume.value != 0.0)
  {
    IndexedAveragesAreLatest(bars, sqrt);
    var closes := Closes(bars);
    var volume := LatestVolumeRatio(Volumes(bars));
    assert LatestSma(closes, 20).Some? <==> |bars| >= 20;
    assert LatestSma(closes, 50).Some? <==> |bars| >= 50;
    assert LatestSma(closes, 200).Some? <==> |bars| >= 200;
    assert LatestBands(closes, sqrt).upper.Some? <==> |bars| >= 20;
    assert volume.0.Some? <==> |bars| >= 20;
  }

  /** The detailed copies' averages and volume fields are the latest ones. */
  lemma IndexedAveragesAreLatest(bars: seq<Bar>, sqrt: real -> real)
    requires |bars| > 0
    ensures var r := IndexedReading(bars, sqrt);
            var closes := Closes(bars);
            var volume := LatestVolumeRatio(Volumes(bars));
            && r.sma20 == LatestSma(closes, 20) && r.sma50 == LatestSma(closes, 50)
            && r.sma200 == LatestSma(closes, 200) && r.upper == LatestBands(closes, sqrt).upper
            && r.avgVolume == volume.0 && r.volumeRatio == volume.1
  {
  }

  /** The serverless copy reads `arr[arr.length - 1]`. Every slot of the RSI array
      from index 14 on is assigned (a flat window assigns NaN), so its last
      element is slot `n - 1` or, with at most 14 bars, `undefined`. The volume
      average always divides by 20, and the volume ratio and both distances go
      through `toFixed(2)` before they are compared. There is no signal line. */
  function LastElementReading(bars: seq<Bar>, sqrt: real -> real): (r: Reading)
    requires |bars| > 0
    ensures r.price == bars[|bars| - 1].close
    ensures r.signal.None? && r.prevMacd.None? && r.prevSignal.None?
    ensures r.avgVolume.Some? && r.avgVolume.value >= 0.0
  {
    var n := |bars|;
    var closes := Closes(bars);
    var vols := Volumes(bars);
    var bands := BollingerBands(closes, BandPeriod, BandWidth, sqrt);
    var upper := JsLast(bands.upper);
    var lower := JsLast(bands.lower);
    var avg20 := AverageVolume20(vols);
    var place := PlaceLatest(closes);
    var price := closes[n - 1];
    Reading(
      bars[n - 1].close,
      vols[n - 1],
      LastSlot(Rsi(closes, RsiPeriod)),
      JsLast(MacdFor(MacdOnly, closes).macd),
      None,
      None,
      None,
      JsLast(Sma(closes, 20)),
      JsLast(Sma(closes, 50)),
      JsLast(Sma(closes, 200)),
      upper,
      lower,
      BbPosition(price, upper, lower),
      Some(avg20),
      LightScore.Round2Slot(VolumeRatio(vols[n - 1], Some(avg20))),
      place.high,
      place.low,
      LightScore.Round2(place.fromHigh),
      LightScore.Round2(place.fromLow))
  }

  /** Reading the last array element gives the same indicator values as reading
      index `n - 1`, because every indicator array is assigned on a suffix. */
  lemma LastElementIsLatestIndex(bars: seq<Bar>, sqrt: real -> real)
    requires |bars| > 0
    ensures var a := LastElementReading(bars, sqrt);
            var b := IndexedReading(bars, sqrt);
            && a.rsi == b.rsi && a.macd == b.macd
            && a.sma20 == b.sma20 && a.sma50 == b.sma50 && a.sma200 == b.sma200
            && a.upper == b.upper && a.lower == b.lower && a.bbPosition == b.bbPosition
            && a.high == b.high && a.low == b.low
  {
    var closes := Closes(bars);
    LastSmaIsLatest(closes, 20);
    LastSmaIsLatest(closes, 50);
    LastSmaIsLatest(closes, 200);
    LastBandsAreLatest(closes, sqrt);
    LastMacdIsLatest(closes);
  }

  lemma LastSmaIsLatest(closes: seq<real>, p: nat)
    requires p > 0 && |closes| > 0
    ensures JsLast(Sma(closes, p)) == LatestSma(closes, p)
  {
    JsLastOfSuffix(Sma(closes, p), p - 1);
  }

  lemma LastBandsAreLatest(closes: seq<real>, sqrt: real -> real)
    requires |closes| > 0
    ensures var bands := BollingerBands(closes, BandPeriod, BandWidth, sqrt);
            var b := LatestBands(closes, sqrt);
            && JsLast(bands.upper) == b.upper && JsLast(bands.lower) == b.lower
  {
    var bands := BollingerBands(closes, BandPeriod, BandWidth, sqrt);
    JsLastOfSuffix(bands.upper, BandPeriod - 1);
    JsLastOfSuffix(bands.lower, BandPeriod - 1);
  }

  lemma LastMacdIsLatest(closes: seq<real>)
    requires |closes| > 0
    ensures JsLast(MacdFor(MacdOnly, closes).macd) == LatestMacd(closes).macd
  {
    DefaultMacdStart(closes);
    JsLastOfSuffix(MacdFor(MacdOnly, closes).macd, 25);
  }

  /** The serverless volume ratio, compared after rounding, differs from the exact
      quotient by at most half a cent; with at least 20 bars the average it
      divides by is the detailed copies' 20-day average. */
  lemma ServerlessVolumeRatio(bars: seq<Bar>, sqrt: real -> real)
    requires |bars| >= 20
    ensures var a := LastElementReading(bars, sqrt);
            var b := IndexedReading(bars, sqrt);
            && a.avgVolume == b.avgVolume
            && (a.volumeRatio.Some? <==> b.volumeRatio.Some?)
            && (a.volumeRatio.Some? ==> -0.005 <= a.volumeRatio.value - b.volumeRatio.value <= 0.005)
  {
  }

  /** A scored ticker, as each variant scores it. */
  datatype Scored =
    | DetailedResult(reading: Reading, levels: LevelLists, detailed: DetailedScore.Outcome)
    | LightResult(reading: Reading, nearest: Nearest, light: LightScore.Outcome)

  /** The score a result reports. */
  function ScoreOf(s: Scored): real
  {
    if s.DetailedResult? then s.detailed.score else s.light.score as real
  }

  function AdviceOf(s: Scored): Advice
  {
    if s.DetailedResult? then s.detailed.advice else s.light.advice
  }

  /** The serverless support and resistance around the latest close. */
  function NearestLevels(bars: seq<Bar>): (r: Nearest)
    requires |bars| > 0
    ensures r.support.Some? ==> r.support.value < bars[|bars| - 1].close as real
    ensures r.resistance.Some? ==> r.resistance.value > bars[|bars| - 1].close as real
  {
    FindLevels(Closes(bars), Volumes(bars))
  }

  /** `analyzeStock` on a non-empty bar sequence, in variant `v`. */
  function AnalyzeBars(v: Variant, bars: seq<Bar>, sqrt: real -> real): (s: Scored)
    requires |bars| > 0
    ensures s.DetailedResult? <==> v != Serverless
    ensures s.DetailedResult? ==> 0.0 <= ScoreOf(s) <= 100.0
    ensures s.LightResult? ==> -25.0 <= ScoreOf(s) <= 125.0
    ensures AdviceOf(s) == Recommend(ScoreOf(s))
  {
    if v == Serverless then LightAnalysis(bars, sqrt) else DetailedAnalysis(v, bars, sqrt)
  }

  /** The detailed copies: the indexed reading scored against the clustered
      support and resistance levels. */
  function DetailedAnalysis(v: Variant, bars: seq<Bar>, sqrt: real -> real): (s: Scored)
    requires |bars| > 0 && v != Serverless
    ensures s.DetailedResult? && 0.0 <= ScoreOf(s) <= 100.0
    ensures AdviceOf(s) == Recommend(ScoreOf(s))
    ensures |s.detailed.tags| <= DetailedScore.TotalSignals
  {
    var r := IndexedReading(bars, sqrt);
    var lists := DetectLevels(Closes(bars), Volumes(bars));
    DetailedResult(r, lists, DetailedScore.Evaluate(BandRuleOf(v), r, lists))
  }

  /** The serverless copy: the last-element reading scored additively, with the
      support of the heaviest-volume bars below the current close. */
  function LightAnalysis(bars: seq<Bar>, sqrt: real -> real): (s: Scored)
    requires |bars| > 0
    ensures s.LightResult? && -25.0 <= ScoreOf(s) <= 125.0
    ensures AdviceOf(s) == Recommend(ScoreOf(s))
    ensures s.nearest.support.Some? ==> s.nearest.support.value < bars[|bars| - 1].close as real
    ensures s.nearest.resistance.Some? ==> s.nearest.resistance.value > bars[|bars| - 1].close as real
  {
    LightScored(LastElementReading(bars, sqrt), NearestLevels(bars))
  }

  /** The additive score of a reading, with the nearest support as the level. */
  function LightScored(r: Reading, nearest: Nearest): (s: Scored)
    ensures s.LightResult? && s.reading == r && s.nearest == nearest
    ensures -25.0 <= ScoreOf(s) <= 125.0
    ensures AdviceOf(s) == Recommend(ScoreOf(s))
  {
    LightResult(r, nearest, LightScore.Evaluate(r, nearest.support))
  }

  /** With fewer than 20 bars no Bollinger position exists, and the two detailed
      copies then score 6.25 points apart. */
  lemma ShortHistoryCopiesDiffer(bars: seq<Bar>, sqrt: real -> real)
    requires 0 < |bars| < 20
    ensures ScoreOf(AnalyzeBars(CommandLine, bars, sqrt))
         == ScoreOf(AnalyzeBars(ApiServer, bars, sqrt)) + 6.25
  {
    DetailedScoreOf(CommandLine, bars, sqrt);
    DetailedScoreOf(ApiServer, bars, sqrt);
    ShortHistoryFactorsGap(bars, sqrt);
  }

  lemma ShortHistoryFactorsGap(bars: seq<Bar>, sqrt: real -> real)
    requires 0 < |bars| < 20
    ensures var r := IndexedReading(bars, sqrt);
            var levels := DetectLevels(Closes(bars), Volumes(bars));
            DetailedScore.Score(DetailedScore.Factors(BandRuleOf(CommandLine), r, levels))
            == DetailedScore.Score(DetailedScore.Factors(BandRuleOf(ApiServer), r, levels)) + 6.25
  {
    DetailedBandRules();
    ShortHistoryNoPosition(bars, sqrt);
    DetailedScore.MissingPositionGap(IndexedReading(bars, sqrt), DetectLevels(Closes(bars), Volumes(bars)));
  }

  lemma DetailedBandRules()
    ensures BandRuleOf(CommandLine) == DetailedScore.CommandLineBands
    ensures BandRuleOf(ApiServer) == DetailedScore.ServerBands
  {
  }

  lemma ShortHistoryNoPosition(bars: seq<Bar>, sqrt: real -> real)
    requires 0 < |bars| < 20
    ensures IndexedReading(bars, sqrt).bbPosition.None?
  {
  }

  /** A detailed variant scores the indexed reading against the clustered levels. */
  lemma DetailedScoreOf(v: Variant, bars: seq<Bar>, sqrt: real -> real)
    requires |bars| > 0 && v != Serverless
    ensures ScoreOf(AnalyzeBars(v, bars, sqrt))
         == DetailedScore.Score(DetailedScore.Factors(BandRuleOf(v), IndexedReading(bars, sqrt),
                                                      DetectLevels(Closes(bars), Volumes(bars))))
  {
    assert AnalyzeBars(v, bars, sqrt) == DetailedAnalysis(v, bars, sqrt);
  }
}

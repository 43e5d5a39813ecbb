/** What every scorer reads and reports: the latest indicator values, the
    75/50/25 recommendation bands shared by all three copies, and the
    comma-joined signal list. */
module Recommendation {
  import opened Optional
  import opened Bars

  /** The values a scorer reads at the latest bar (`latestIndex`), and the
      previous MACD and signal values (`prevIndex`). */
  datatype Reading = Reading(
    price: Price,
    volume: real,
    rsi: Option<real>,
    macd: Option<real>,
    signal: Option<real>,
    prevMacd: Option<real>,
    prevSignal: Option<real>,
    sma20: Option<real>,
    sma50: Option<real>,
    sma200: Option<real>,
    upper: Option<real>,
    lower: Option<real>,
    bbPosition: Option<real>,
    avgVolume: Option<real>,
    volumeRatio: Option<real>,
    high: real,
    low: real,
    distanceFromHigh: real,
    distanceFromLow: real)

  datatype Advice = StrongBuy | ModerateBuy | Hold | AvoidBuying

  /** Strength of an advice, for comparing two of them. */
  function Strength(a: Advice): nat
  {
    match a
    case AvoidBuying => 0
    case Hold => 1
    case ModerateBuy => 2
    case StrongBuy => 3
  }

  /** `score >= 75` STRONG BUY, `>= 50` MODERATE BUY, `>= 25` HOLD, else AVOID. */
  function Recommend(score: real): (r: Advice)
    ensures r == StrongBuy <==> score >= 75.0
    ensures r == ModerateBuy <==> 50.0 <= score < 75.0
    ensures r == Hold <==> 25.0 <= score < 50.0
    ensures r == AvoidBuying <==> score < 25.0
  {
    if score >= 75.0 then StrongBuy
    else if score >= 50.0 then ModerateBuy
    else if score >= 25.0 then Hold
    else AvoidBuying
  }

  /** A higher score never gets weaker advice. */
  lemma RecommendMonotone(a: real, b: real)
    requires a <= b
    ensures Strength(Recommend(a)) <= Strength(Recommend(b))
  {
  }

  /** The band edges belong to the stronger advice. */
  lemma BandEdgesInclusive()
    ensures Recommend(75.0) == StrongBuy
    ensures Recommend(50.0) == ModerateBuy
    ensures Recommend(25.0) == Hold
    ensures Recommend(24.99) == AvoidBuying
  {
  }

  /** `parts.join(sep)` */
  function Join(parts: seq<string>, sep: string): (r: string)
    ensures |parts| == 0 ==> r == ""
    ensures |parts| > 0 ==> |r| >= |parts[0]|
    ensures |parts| > 0 ==> r[..|parts[0]|] == parts[0]
    ensures |parts| == 1 ==> r == parts[0]
  {
    if |parts| == 0 then ""
    else if |parts| == 1 then parts[0]
    else parts[0] + sep + Join(parts[1..], sep)
  }

  /** `signals.join(', ') || 'None'`: an empty join is the falsy empty string. */
  function SignalText(tags: seq<string>): (r: string)
    ensures |tags| == 0 ==> r == "None"
    ensures |tags| > 0 && |tags[0]| > 0 ==> r == Join(tags, ", ")
  {
    var joined := Join(tags, ", ");
    if joined == "" then "None" else joined
  }

  /** Appending a part appends the separator and that part: together with the
      one-part case this fixes `join` completely, with the separator between
      consecutive parts only. */
  lemma {:induction false} JoinAppend(parts: seq<string>, p: string, sep: string)
    requires |parts| > 0
    ensures Join(parts + [p], sep) == Join(parts, sep) + sep + p
    decreases |parts|
  {
    if |parts| == 1 {
      assert parts + [p] == [parts[0], p];
      assert [parts[0], p][1..] == [p];
    } else {
      assert (parts + [p])[1..] == parts[1..] + [p];
      JoinAppend(parts[1..], p, sep);
    }
  }

  /** The joined length is the parts' lengths plus one separator per gap. */
  lemma {:induction false} JoinLength(parts: seq<string>, sep: string)
    requires |parts| > 0
    ensures |Join(parts, sep)| == SumLengths(parts) + (|parts| - 1) * |sep|
    decreases |parts|
  {
    if |parts| > 1 {
      JoinLength(parts[1..], sep);
    }
  }

  function SumLengths(parts: seq<string>): nat
    decreases |parts|
  {
    if |parts| == 0 then 0 else |parts[0]| + SumLengths(parts[1..])
  }
}

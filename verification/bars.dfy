/** The daily bar sequence that the data provider hands to the analysis, and the
    two index-aligned series derived from it. */
module Bars {

  /** A closing price. Market closes are positive, which keeps every division by
      a price (distances from the 52-week range, the 2% proximity tests) defined. */
  type Price = r: real | r > 0.0 witness 1.0

  /** One trading day: closing price and traded volume. The date is not used by
      the analysis and is not modelled. */
  datatype Bar = Bar(close: Price, volume: nat)

  /** `result.map(day => day.close)` */
  function Closes(bars: seq<Bar>): (r: seq<real>)
    ensures |r| == |bars|
    ensures forall i :: 0 <= i < |r| ==> r[i] == bars[i].close && r[i] > 0.0
  {
    seq(|bars|, i requires 0 <= i < |bars| => bars[i].close as real)
  }

  /** `result.map(day => day.volume)` */
  function Volumes(bars: seq<Bar>): (r: seq<real>)
    ensures |r| == |bars|
    ensures forall i :: 0 <= i < |r| ==> r[i] == bars[i].volume as real && r[i] >= 0.0
  {
    seq(|bars|, i requires 0 <= i < |bars| => bars[i].volume as real)
  }
}

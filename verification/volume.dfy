/** Volume statistics: `calculateAverageVolume` (the 20-day trailing mean of
    stock_analyzer.js and api-server.js), the 20-day average of api/analyze.js
    that always divides by 20, and the current-to-average volume ratio. */
module VolumeStats {
  import opened Optional
  import opened RealSeq
  import opened Windows

  /** `calculateAverageVolume(volumes, p)`: the trailing mean of `p` volumes,
      undefined before index `p - 1`. */
  function AverageVolume(vols: seq<real>, p: nat): (r: seq<Option<real>>)
    requires p > 0
    requires forall j :: 0 <= j < |vols| ==> vols[j] >= 0.0
    ensures |r| == |vols|
    ensures forall i :: 0 <= i < |vols| ==> (r[i].Some? <==> i >= p - 1)
    ensures forall i :: p - 1 <= i < |vols| ==>
              r[i].value >= 0.0 && r[i].value * (p as real) == Sum(Window(vols, p, i))
  {
    var r := Sma(vols, p);
    forall i | p - 1 <= i < |vols|
      ensures r[i].value >= 0.0
    {
      MeanNonNeg(Window(vols, p, i));
    }
    r
  }

  /** `currentVolume / avgVolume`: undefined (NaN) when the average is undefined,
      and when it is zero (see `ZeroAverageMeansZeroVolume`, the source then
      computes `0 / 0`). */
  function VolumeRatio(current: real, avg: Option<real>): (r: Option<real>)
    ensures r.Some? <==> avg.Some? && avg.value != 0.0
    ensures r.Some? ==> r.value * avg.value == current
  {
    if avg.Some? && avg.value != 0.0 then Some(current / avg.value) else None
  }

  /** A zero trailing average of non-negative volumes forces the current
      (last) volume of the window to be zero, so the ratio is `0 / 0`. */
  lemma ZeroAverageMeansZeroVolume(vols: seq<real>, p: nat, i: nat)
    requires 0 < p && p - 1 <= i < |vols|
    requires forall j :: 0 <= j < |vols| ==> vols[j] >= 0.0
    requires AverageVolume(vols, p)[i] == Some(0.0)
    ensures vols[i] == 0.0
  {
    var w := Window(vols, p, i);
    assert Sum(w) == 0.0;
    SumZeroAllZero(w);
    assert w[p - 1] == vols[i];
  }

  /** api/analyze.js: `volumes.slice(-20).reduce((a, b) => a + b, 0) / 20`. */
  function AverageVolume20(vols: seq<real>): (r: real)
    requires forall j :: 0 <= j < |vols| ==> vols[j] >= 0.0
    ensures r >= 0.0
    ensures |vols| >= 20 ==> Some(r) == AverageVolume(vols, 20)[|vols| - 1]
    ensures |vols| < 20 ==> r * 20.0 == Sum(vols)
  {
    var k := if |vols| < 20 then |vols| else 20;
    var w := vols[|vols| - k..];
    NonNegSum(w);
    if |vols| < 20 then
      assert w == vols;
      Sum(w) / 20.0
    else
      assert w == Window(vols, 20, |vols| - 1);
      Sum(w) / 20.0
  }
}

/** `calculateMACD`: the difference of a fast and a slow EMA, and (in the full
    mode of stock_analyzer.js and api-server.js) a signal EMA computed over the
    compacted defined MACD values and re-aligned onto the original indices, plus
    the histogram. api/analyze.js only computes the MACD line. */
module Macd {
  import opened Optional
  import opened Windows

  /** Which outputs `calculateMACD` produces. */
  datatype MacdMode = WithSignal | MacdOnly

  datatype MacdOutput =
    | Full(macd: seq<Option<real>>, signal: seq<Option<real>>, histogram: seq<Option<real>>)
    | LineOnly(macd: seq<Option<real>>)

  /** `macd[i] = emaFast[i] - emaSlow[i]` wherever both EMAs are defined. */
  function MacdLine(xs: seq<real>, fast: nat, slow: nat): (r: seq<Option<real>>)
    requires fast > 0 && slow > 0
    ensures |r| == |xs|
    ensures forall i :: 0 <= i < |xs| ==> (r[i].Some? <==> i >= fast - 1 && i >= slow - 1)
    ensures forall i :: 0 <= i < |xs| && r[i].Some? ==>
              r[i].value == EmaAt(xs, fast, i) - EmaAt(xs, slow, i)
  {
    var ef := Ema(xs, fast);
    var es := Ema(xs, slow);
    seq(|xs|, i requires 0 <= i < |xs| => Minus(ef[i], es[i]))
  }

  /** Number of defined slots strictly before index `i`. */
  function Rank(a: seq<Option<real>>, i: nat): (k: nat)
    requires i <= |a|
    ensures k <= i
  {
    if i == 0 then 0 else Rank(a, i - 1) + (if a[i - 1].Some? then 1 else 0)
  }

  lemma {:induction false} RankOfPrefix(a: seq<Option<real>>, n: nat, i: nat)
    requires i <= n <= |a|
    ensures Rank(a[..n], i) == Rank(a, i)
    decreases i
  {
    if i > 0 {
      RankOfPrefix(a, n, i - 1);
    }
  }

  lemma {:induction false} RankMonotone(a: seq<Option<real>>, i: nat, j: nat)
    requires i <= j <= |a|
    ensures Rank(a, i) <= Rank(a, j)
    ensures i < j && a[i].Some? ==> Rank(a, i) < Rank(a, j)
    decreases j - i
  {
    if i < j {
      RankMonotone(a, i, j - 1);
    }
  }

  /** `macd.filter(v => v !== undefined)`: the defined values in index order; the
      defined slot `i` lands at position `Rank(a, i)`. */
  function Compact(a: seq<Option<real>>): (c: seq<real>)
    ensures |c| == Rank(a, |a|)
    ensures forall i :: 0 <= i < |a| && a[i].Some? ==>
              Rank(a, i) < |c| && c[Rank(a, i)] == a[i].value
    decreases |a|
  {
    if |a| == 0 then []
    else
      var init := a[..|a| - 1];
      var c := Compact(init);
      forall i | 0 <= i < |a| - 1
        ensures Rank(init, i) == Rank(a, i)
      {
        RankOfPrefix(a, |a| - 1, i);
      }
      RankOfPrefix(a, |a| - 1, |a| - 1);
      c + (if a[|a| - 1].Some? then [a[|a| - 1].value] else [])
  }

  /** What the alignment loop stores at index `k`. */
  function AlignedSlot(macd: seq<Option<real>>, sig: seq<Option<real>>, signal: nat, k: nat): Option<real>
    requires k < |macd| && |sig| == Rank(macd, |macd|)
  {
    if macd[k].Some? && Rank(macd, k) >= signal - 1 then
      RankMonotone(macd, k, |macd|);
      sig[Rank(macd, k)]
    else None
  }

  /** The alignment loop from index `i`, with `si` defined MACD values already
      passed: at a defined slot, while the counter is inside the signal line, the
      slot receives the signal entry at the counter once the counter has reached
      `signal - 1`, and the counter advances; every other slot stays undefined.
      The source's
      `signalLine.length` is `max(signal, m)` for `m` compacted values; the counter
      never exceeds `m - 1`, so the guard with `|sig| == m` is the same test. */
  function AlignFrom(macd: seq<Option<real>>, sig: seq<Option<real>>, signal: nat, i: nat, si: nat)
    : (r: seq<Option<real>>)
    requires i <= |macd|
    requires si == Rank(macd, i) && |sig| == Rank(macd, |macd|)
    ensures |r| == |macd| - i
    ensures forall k :: i <= k < |macd| ==> r[k - i] == AlignedSlot(macd, sig, signal, k)
    decreases |macd| - i
  {
    if i == |macd| then []
    else
      RankMonotone(macd, i, |macd|);
      if macd[i].Some? && si < |sig| then
        (if si >= signal - 1 then [sig[si]] else [None]) + AlignFrom(macd, sig, signal, i + 1, si + 1)
      else
        [None] + AlignFrom(macd, sig, signal, i + 1, si)
  }

  /** The signal line: the EMA of the compacted MACD values, re-aligned so that
      defined slot `i` reads the EMA at its compacted position. */
  function AlignedSignal(macd: seq<Option<real>>, signal: nat): (r: seq<Option<real>>)
    requires signal > 0
    ensures |r| == |macd|
    ensures forall i :: 0 <= i < |macd| ==>
              (r[i].Some? <==> macd[i].Some? && Rank(macd, i) >= signal - 1)
    ensures forall i :: 0 <= i < |macd| && r[i].Some? ==>
              r[i].value == EmaAt(Compact(macd), signal, Rank(macd, i))
  {
    var signalLine := Ema(Compact(macd), signal);
    var aligned := AlignFrom(macd, signalLine, signal, 0, 0);
    assert forall i :: 0 <= i < |macd| ==> aligned[i] == AlignedSlot(macd, signalLine, signal, i);
    aligned
  }

  /** `histogram[i] = macd[i] - signal[i]` wherever both are defined. */
  function Histogram(macd: seq<Option<real>>, sig: seq<Option<real>>): (r: seq<Option<real>>)
    requires |sig| == |macd|
    ensures |r| == |macd|
    ensures forall i :: 0 <= i < |macd| ==> (r[i].Some? <==> macd[i].Some? && sig[i].Some?)
    ensures forall i :: 0 <= i < |macd| && r[i].Some? ==> r[i].value == macd[i].value - sig[i].value
  {
    seq(|macd|, i requires 0 <= i < |macd| => Minus(macd[i], sig[i]))
  }

  /** The full MACD with signal line and histogram. */
  function FullMacd(xs: seq<real>, fast: nat, slow: nat, signal: nat): (r: MacdOutput)
    requires fast > 0 && slow > 0 && signal > 0
    ensures r.Full?
    ensures |r.macd| == |r.signal| == |r.histogram| == |xs|
    ensures forall i :: 0 <= i < |xs| ==> (r.macd[i].Some? <==> i >= fast - 1 && i >= slow - 1)
    ensures forall i :: 0 <= i < |xs| ==>
              (r.signal[i].Some? <==> r.macd[i].Some? && Rank(r.macd, i) >= signal - 1)
    ensures forall i :: 0 <= i < |xs| && r.signal[i].Some? ==>
              r.signal[i].value == EmaAt(Compact(r.macd), signal, Rank(r.macd, i))
    ensures forall i :: 0 <= i < |xs| ==>
              (r.histogram[i].Some? <==> r.macd[i].Some? && r.signal[i].Some?)
    ensures forall i :: 0 <= i < |xs| && r.histogram[i].Some? ==>
              r.histogram[i].value == r.macd[i].value - r.signal[i].value
  {
    var macd := MacdLine(xs, fast, slow);
    var aligned := AlignedSignal(macd, signal);
    Full(macd, aligned, Histogram(macd, aligned))
  }

  /** `calculateMACD` in the configured mode; the fast/slow/signal periods are
      the source's defaults 12, 26 and 9. */
  function MacdFor(mode: MacdMode, xs: seq<real>): (r: MacdOutput)
    ensures mode == WithSignal <==> r.Full?
    ensures r.macd == MacdLine(xs, 12, 26)
  {
    match mode
    case WithSignal => FullMacd(xs, 12, 26, 9)
    case MacdOnly => LineOnly(MacdLine(xs, 12, 26))
  }

  /** When exactly the slots from `s` on are defined, `Rank` counts them. */
  lemma {:induction false} RankOfDefinedSuffix(a: seq<Option<real>>, s: nat, i: nat)
    requires i <= |a|
    requires forall j :: 0 <= j < |a| ==> (a[j].Some? <==> j >= s)
    ensures Rank(a, i) == if i <= s then 0 else i - s
    decreases i
  {
    if i > 0 {
      RankOfDefinedSuffix(a, s, i - 1);
    }
  }

  /** With the default periods the MACD line starts at index 25 and the aligned
      signal (hence the histogram) at index 33. */
  lemma DefaultMacdStart(xs: seq<real>)
    ensures var r := MacdFor(WithSignal, xs);
            forall i :: 0 <= i < |xs| ==>
              && (r.macd[i].Some? <==> i >= 25)
              && (r.signal[i].Some? <==> i >= 33)
              && (r.histogram[i].Some? <==> i >= 33)
  {
    var r := MacdFor(WithSignal, xs);
    forall i | 0 <= i < |xs|
      ensures r.signal[i].Some? <==> i >= 33
    {
      RankOfDefinedSuffix(r.macd, 25, i);
    }
  }
}

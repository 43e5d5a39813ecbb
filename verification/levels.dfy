/** The detailed support/resistance detector `findSupportResistance` of
    stock_analyzer.js and api-server.js: strict two-left/two-right local extrema
    over the last `min(60, n)` bars with a volume filter, first-match clustering
    within 2% of the incoming extremum's price, a stable ranking by count, and
    the top two levels of each kind. */
module Levels {
  import opened Optional
  import opened RealSeq
  import opened Sorting

  datatype Kind = Support | Resistance

  /** One pushed `{ price, type }`, with the window index it was found at. */
  datatype Extremum = Extremum(index: nat, price: real, kind: Kind)

  /** One entry of `grouped`: `{ price, type, count }`. */
  datatype Level = Level(price: real, kind: Kind, count: nat)

  datatype LevelLists = LevelLists(support: seq<Level>, resistance: seq<Level>)

  /** Bars looked back over: `Math.min(60, prices.length)`. */
  const Lookback: nat := 60

  /** Levels kept per kind: `.slice(0, 2)`. */
  const PerKind: nat := 2

  /** `w[i]` strictly exceeds its two neighbours on each side. */
  predicate IsPeak(w: seq<real>, i: nat)
    requires 2 <= i < |w| - 2
  {
    w[i] > w[i - 1] && w[i] > w[i - 2] && w[i] > w[i + 1] && w[i] > w[i + 2]
  }

  /** `w[i]` is strictly below its two neighbours on each side. */
  predicate IsTrough(w: seq<real>, i: nat)
    requires 2 <= i < |w| - 2
  {
    w[i] < w[i - 1] && w[i] < w[i - 2] && w[i] < w[i + 1] && w[i] < w[i + 2]
  }

  /** `volume > avgVol * 0.8` */
  predicate HeavyVolume(volume: real, avg: real)
  {
    volume > avg * 0.8
  }

  /** What a pushed extremum must satisfy: a heavy-volume strict peak (for a
      resistance) or trough (for a support) at an interior index of the window. */
  ghost predicate Genuine(wp: seq<real>, wv: seq<real>, avg: real, e: Extremum)
    requires |wv| == |wp|
  {
    && 2 <= e.index < |wp| - 2
    && e.price == wp[e.index]
    && HeavyVolume(wv[e.index], avg)
    && (e.kind == Resistance ==> IsPeak(wp, e.index))
    && (e.kind == Support ==> IsTrough(wp, e.index))
  }

  /** The pushes made by one iteration of the scan loop (resistance test first).
      A strict peak is never a strict trough, so at most one is made. */
  function ExtremaAt(wp: seq<real>, wv: seq<real>, avg: real, i: nat): (r: seq<Extremum>)
    requires |wv| == |wp| && 2 <= i < |wp| - 2
    ensures |r| <= 1
    ensures forall a :: 0 <= a < |r| ==> r[a].index == i && Genuine(wp, wv, avg, r[a])
    ensures IsPeak(wp, i) && HeavyVolume(wv[i], avg) ==> Extremum(i, wp[i], Resistance) in r
    ensures IsTrough(wp, i) && HeavyVolume(wv[i], avg) ==> Extremum(i, wp[i], Support) in r
  {
    (if IsPeak(wp, i) && HeavyVolume(wv[i], avg) then [Extremum(i, wp[i], Resistance)] else [])
    + (if IsTrough(wp, i) && HeavyVolume(wv[i], avg) then [Extremum(i, wp[i], Support)] else [])
  }

  /** The `levels` array after the scan loop has run for `2 <= i < hi`: only
      genuine extrema, in increasing index order. */
  function ExtremaBelow(wp: seq<real>, wv: seq<real>, avg: real, hi: nat): (r: seq<Extremum>)
    requires |wv| == |wp| && (hi <= 2 || hi <= |wp| - 2)
    ensures forall a :: 0 <= a < |r| ==> r[a].index < hi && Genuine(wp, wv, avg, r[a])
    ensures forall a, b :: 0 <= a < b < |r| ==> r[a].index < r[b].index
    decreases hi
  {
    if hi <= 2 then []
    else
      var before := ExtremaBelow(wp, wv, avg, hi - 1);
      var here := ExtremaAt(wp, wv, avg, hi - 1);
      var r := before + here;
      forall a, b | 0 <= a < b < |r|
        ensures r[a].index < r[b].index
      {
        if b >= |before| {
          assert r[b] == here[b - |before|];
        }
      }
      r
  }

  /** Every heavy-volume strict peak (as a resistance) and strict trough (as a
      support) below `hi` is pushed. */
  lemma {:induction false} ExtremaBelowComplete(wp: seq<real>, wv: seq<real>, avg: real, hi: nat, i: nat, k: Kind)
    requires |wv| == |wp| && (hi <= 2 || hi <= |wp| - 2)
    requires 2 <= i < hi && HeavyVolume(wv[i], avg)
    requires k == Resistance ==> IsPeak(wp, i)
    requires k == Support ==> IsTrough(wp, i)
    ensures Extremum(i, wp[i], k) in ExtremaBelow(wp, wv, avg, hi)
    decreases hi
  {
    var x := Extremum(i, wp[i], k);
    ExtremaBelowStep(wp, wv, avg, hi);
    if i < hi - 1 {
      ExtremaBelowComplete(wp, wv, avg, hi - 1, i, k);
      InPrefix(x, ExtremaBelow(wp, wv, avg, hi - 1), ExtremaAt(wp, wv, avg, hi - 1));
    } else {
      assert x in ExtremaAt(wp, wv, avg, i);
      InSuffix(x, ExtremaBelow(wp, wv, avg, hi - 1), ExtremaAt(wp, wv, avg, hi - 1));
    }
  }

  /** One more iteration of the scan appends that iteration's pushes. */
  lemma ExtremaBelowStep(wp: seq<real>, wv: seq<real>, avg: real, hi: nat)
    requires |wv| == |wp| && 2 < hi <= |wp| - 2
    ensures ExtremaBelow(wp, wv, avg, hi) == ExtremaBelow(wp, wv, avg, hi - 1) + ExtremaAt(wp, wv, avg, hi - 1)
  {
  }

  lemma InPrefix<T>(x: T, a: seq<T>, b: seq<T>)
    requires x in a
    ensures x in a + b
  {
    var k :| 0 <= k < |a| && a[k] == x;
    assert (a + b)[k] == x;
  }

  lemma InSuffix<T>(x: T, a: seq<T>, b: seq<T>)
    requires x in b
    ensures x in a + b
  {
    var k :| 0 <= k < |b| && b[k] == x;
    assert (a + b)[|a| + k] == x;
  }

  /** The scan over one window of closes `wp` and volumes `wv`. The loop body
      runs only when the window has more than four bars, so the average volume
      it uses is always over a non-empty window. */
  function Scan(wp: seq<real>, wv: seq<real>): (r: seq<Extremum>)
    requires |wv| == |wp|
    ensures forall a :: 0 <= a < |r| ==> |wp| > 4 && Genuine(wp, wv, Mean(wv), r[a])
    ensures forall a, b :: 0 <= a < b < |r| ==> r[a].index < r[b].index
  {
    if |wp| <= 4 then [] else ExtremaBelow(wp, wv, Mean(wv), |wp| - 2)
  }

  /** Bars in the window: `Math.min(60, prices.length)`. */
  function Span(n: nat): nat
  {
    if n < Lookback then n else Lookback
  }

  lemma ScanPosition(wp: seq<real>, wv: seq<real>, x: Extremum)
    requires |wv| == |wp| && x in Scan(wp, wv)
    ensures 2 <= x.index < |wp| - 2 && x.price == wp[x.index]
  {
    var r := Scan(wp, wv);
    var a :| 0 <= a < |r| && r[a] == x;
    assert Genuine(wp, wv, Mean(wv), r[a]);
  }

  /** The raw extrema of the last `min(60, n)` bars, in bar order; window index
      `i` is bar `n - min(60, n) + i` of the whole series. */
  function Extrema(closes: seq<real>, vols: seq<real>): (r: seq<Extremum>)
    requires |vols| == |closes|
    ensures forall a :: 0 <= a < |r| ==>
              && 2 <= r[a].index < Span(|closes|) - 2
              && r[a].price == closes[|closes| - Span(|closes|) + r[a].index]
    ensures forall a, b :: 0 <= a < b < |r| ==> r[a].index < r[b].index
  {
    var wp := Recent(closes, Lookback);
    var wv := Recent(vols, Lookback);
    var r := Scan(wp, wv);
    assert |wp| == Span(|closes|);
    forall a | 0 <= a < |r|
      ensures 2 <= r[a].index < |wp| - 2 && r[a].price == closes[|closes| - |wp| + r[a].index]
    {
      ScanPosition(wp, wv, r[a]);
    }
    r
  }

  /** The scan finds exactly the heavy-volume strict peaks (as resistance) and
      strict troughs (as support) at interior window indices. */
  lemma ScanExact(wp: seq<real>, wv: seq<real>, i: nat, k: Kind)
    requires |wv| == |wp| && |wp| > 4 && 2 <= i < |wp| - 2
    ensures Extremum(i, wp[i], k) in Scan(wp, wv) <==>
              && HeavyVolume(wv[i], Mean(wv))
              && (k == Resistance ==> IsPeak(wp, i))
              && (k == Support ==> IsTrough(wp, i))
  {
    if Extremum(i, wp[i], k) in Scan(wp, wv) {
      ScanSound(wp, wv, i, k);
    }
    if && HeavyVolume(wv[i], Mean(wv))
       && (k == Resistance ==> IsPeak(wp, i))
       && (k == Support ==> IsTrough(wp, i)) {
      ScanComplete(wp, wv, i, k);
    }
  }

  /** Every heavy-volume strict extremum of the right kind is found. */
  lemma ScanComplete(wp: seq<real>, wv: seq<real>, i: nat, k: Kind)
    requires |wv| == |wp| && |wp| > 4 && 2 <= i < |wp| - 2
    requires HeavyVolume(wv[i], Mean(wv))
    requires k == Resistance ==> IsPeak(wp, i)
    requires k == Support ==> IsTrough(wp, i)
    ensures Extremum(i, wp[i], k) in Scan(wp, wv)
  {
    assert Scan(wp, wv) == ExtremaBelow(wp, wv, Mean(wv), |wp| - 2);
    ExtremaBelowComplete(wp, wv, Mean(wv), |wp| - 2, i, k);
  }

  /** Only heavy-volume strict extrema of the right kind are found. */
  lemma ScanSound(wp: seq<real>, wv: seq<real>, i: nat, k: Kind)
    requires |wv| == |wp| && |wp| > 4 && 2 <= i < |wp| - 2
    requires Extremum(i, wp[i], k) in Scan(wp, wv)
    ensures HeavyVolume(wv[i], Mean(wv))
    ensures k == Resistance ==> IsPeak(wp, i)
    ensures k == Support ==> IsTrough(wp, i)
  {
    var r := Scan(wp, wv);
    var a :| 0 <= a < |r| && r[a] == Extremum(i, wp[i], k);
    assert Genuine(wp, wv, Mean(wv), r[a]);
  }

  /** No window index yields both a support and a resistance extremum. */
  lemma NoIndexBothKinds(closes: seq<real>, vols: seq<real>, a: nat, b: nat)
    requires |vols| == |closes|
    requires a < b < |Extrema(closes, vols)|
    ensures Extrema(closes, vols)[a].index != Extrema(closes, vols)[b].index
  {
  }

  /** Without a strict peak or trough below `hi` the scan pushes nothing. */
  lemma {:induction false} NoExtremaBelow(wp: seq<real>, wv: seq<real>, avg: real, hi: nat)
    requires |wv| == |wp| && (hi <= 2 || hi <= |wp| - 2)
    requires forall i :: 2 <= i < hi ==> !IsPeak(wp, i) && !IsTrough(wp, i)
    ensures ExtremaBelow(wp, wv, avg, hi) == []
    decreases hi
  {
    if hi > 2 {
      NoExtremaBelow(wp, wv, avg, hi - 1);
      assert !IsPeak(wp, hi - 1) && !IsTrough(wp, hi - 1);
      assert ExtremaAt(wp, wv, avg, hi - 1) == [];
      assert ExtremaBelow(wp, wv, avg, hi) == ExtremaBelow(wp, wv, avg, hi - 1) + ExtremaAt(wp, wv, avg, hi - 1);
    }
  }

  /** A constant window yields nothing. */
  lemma FlatWindowNoExtrema(wp: seq<real>, wv: seq<real>, c: real)
    requires |wv| == |wp|
    requires forall j :: 0 <= j < |wp| ==> wp[j] == c
    ensures Scan(wp, wv) == []
  {
    if |wp| > 4 {
      forall i | 2 <= i < |wp| - 2
        ensures !IsPeak(wp, i) && !IsTrough(wp, i)
      {
        assert wp[i] == wp[i - 1];
      }
      NoExtremaBelow(wp, wv, Mean(wv), |wp| - 2);
    }
  }

  /** A flat series has no strict extrema. */
  lemma FlatSeriesNoExtrema(closes: seq<real>, vols: seq<real>, c: real)
    requires |vols| == |closes|
    requires forall j :: 0 <= j < |closes| ==> closes[j] == c
    ensures Extrema(closes, vols) == []
  {
    FlatWindowNoExtrema(Recent(closes, Lookback), Recent(vols, Lookback), c);
  }

  /** `Math.abs(g.price - level.price) / level.price < 0.02 && g.type === level.type`.
      The tolerance is relative to the incoming extremum, not to the group. A zero
      price makes the quotient NaN or Infinity, which fails the test. */
  function Joins(g: Level, e: Extremum): (b: bool)
    ensures e.price > 0.0 ==> (b <==> g.kind == e.kind && e.price * 0.98 < g.price < e.price * 1.02)
    ensures e.price < 0.0 ==> (b <==> g.kind == e.kind)
    ensures e.price == 0.0 ==> !b
  {
    WithinTwoPercent(g.price, e.price);
    e.price != 0.0 && Abs(g.price - e.price) / e.price < 0.02 && g.kind == e.kind
  }

  /** For a positive reference price the 2% test is a strict band around it; a
      negative reference makes the quotient non-positive, so the test passes. */
  lemma WithinTwoPercent(x: real, p: real)
    ensures p > 0.0 ==> (Abs(x - p) / p < 0.02 <==> p * 0.98 < x < p * 1.02)
    ensures p < 0.0 ==> Abs(x - p) / p < 0.02
  {
    if p > 0.0 {
      QuotientBelow(Abs(x - p), p, 0.02);
    } else if p < 0.0 {
      assert Abs(x - p) / p * p == Abs(x - p);
      assert Abs(x - p) / p <= 0.0;
    }
  }

  /** `grouped.find(...)` from position `j`, as an index. */
  function FindFrom(groups: seq<Level>, e: Extremum, j: nat): (r: Option<nat>)
    requires j <= |groups|
    ensures r.Some? ==> j <= r.value < |groups| && Joins(groups[r.value], e)
                        && forall m :: j <= m < r.value ==> !Joins(groups[m], e)
    ensures r.None? ==> forall m :: j <= m < |groups| ==> !Joins(groups[m], e)
    decreases |groups| - j
  {
    if j == |groups| then None
    else if Joins(groups[j], e) then Some(j)
    else FindFrom(groups, e, j + 1)
  }

  lemma QuotientBelow(a: real, p: real, c: real)
    requires p > 0.0
    ensures a / p < c <==> a < c * p
  {
    var q := a / p;
    assert q * p == a;
    if q < c {
      assert (c - q) * p > 0.0;
    } else {
      assert (q - c) * p >= 0.0;
    }
  }

  /** `groups[j]` is the first group that `e` joins. */
  predicate FirstJoin(groups: seq<Level>, e: Extremum, j: nat)
  {
    j < |groups| && Joins(groups[j], e) && forall m :: 0 <= m < j ==> !Joins(groups[m], e)
  }

  /** One `forEach` step: merge into the first joinable group (count + 1, price
      halved towards the newcomer) or open a new group with count 1. */
  function AddExtremum(groups: seq<Level>, e: Extremum): (r: seq<Level>)
    ensures (forall j :: 0 <= j < |groups| ==> !Joins(groups[j], e)) ==>
              r == groups + [Level(e.price, e.kind, 1)]
    ensures forall j: nat :: FirstJoin(groups, e, j) ==>
              && |r| == |groups|
              && r[j] == Level((groups[j].price + e.price) / 2.0, e.kind, groups[j].count + 1)
              && (forall m :: 0 <= m < |groups| && m != j ==> r[m] == groups[m])
  {
    match FindFrom(groups, e, 0)
    case Some(j) =>
      var g := groups[j];
      groups[j := Level((g.price + e.price) / 2.0, g.kind, g.count + 1)]
    case None => groups + [Level(e.price, e.kind, 1)]
  }

  /** `grouped` after all extrema have been processed in order. */
  function Cluster(ext: seq<Extremum>): (r: seq<Level>)
    ensures forall a :: 0 <= a < |r| ==> r[a].count >= 1
    decreases |ext|
  {
    if |ext| == 0 then []
    else AddExtremum(Cluster(ext[..|ext| - 1]), ext[|ext| - 1])
  }

  /** Sum of the counts of the groups of kind `k`. */
  function CountOf(groups: seq<Level>, k: Kind): nat
    decreases |groups|
  {
    if |groups| == 0 then 0
    else CountOf(groups[..|groups| - 1], k)
         + (if groups[|groups| - 1].kind == k then groups[|groups| - 1].count else 0)
  }

  /** Number of extrema of kind `k`. */
  function NumberOf(ext: seq<Extremum>, k: Kind): nat
    decreases |ext|
  {
    if |ext| == 0 then 0
    else NumberOf(ext[..|ext| - 1], k) + (if ext[|ext| - 1].kind == k then 1 else 0)
  }

  lemma {:induction false} CountOfUpdate(groups: seq<Level>, j: nat, g: Level, k: Kind)
    requires j < |groups| && g.kind == groups[j].kind
    ensures CountOf(groups[j := g], k) + (if g.kind == k then groups[j].count else 0)
         == CountOf(groups, k) + (if g.kind == k then g.count else 0)
    decreases |groups|
  {
    var n := |groups|;
    if j < n - 1 {
      assert groups[j := g][..n - 1] == groups[..n - 1][j := g];
      CountOfUpdate(groups[..n - 1], j, g, k);
    } else {
      assert groups[j := g][..n - 1] == groups[..n - 1];
    }
  }

  lemma CountOfAppend(groups: seq<Level>, g: Level, k: Kind)
    ensures CountOf(groups + [g], k) == CountOf(groups, k) + (if g.kind == k then g.count else 0)
  {
    assert (groups + [g])[..|groups|] == groups;
  }

  /** Clustering never mixes kinds and loses no extremum: the counts of the groups
      of each kind add up to the number of extrema of that kind. */
  lemma {:induction false} ClusterConservesCounts(ext: seq<Extremum>, k: Kind)
    ensures CountOf(Cluster(ext), k) == NumberOf(ext, k)
    decreases |ext|
  {
    if |ext| > 0 {
      var init := ext[..|ext| - 1];
      var e := ext[|ext| - 1];
      var groups := Cluster(init);
      ClusterConservesCounts(init, k);
      assert Cluster(ext) == AddExtremum(groups, e);
      AddExtremumCounts(groups, e, k);
    }
  }

  /** One clustering step adds one to the count of the extremum's kind. */
  lemma AddExtremumCounts(groups: seq<Level>, e: Extremum, k: Kind)
    ensures CountOf(AddExtremum(groups, e), k) == CountOf(groups, k) + (if e.kind == k then 1 else 0)
  {
    var r := AddExtremum(groups, e);
    match FindFrom(groups, e, 0)
    case Some(j) =>
      var g := groups[j];
      var merged := Level((g.price + e.price) / 2.0, g.kind, g.count + 1);
      assert FirstJoin(groups, e, j);
      assert r == groups[j := merged];
      CountOfUpdate(groups, j, merged, k);
    case None =>
      CountOfAppend(groups, Level(e.price, e.kind, 1), k);
  }

  /** Two resistance extrema at 100 and 101 merge into one level at 100.5 with
      count 2; a later one at 110 opens its own level. */
  lemma ClusterExample()
    ensures Cluster([Extremum(2, 100.0, Resistance), Extremum(5, 101.0, Resistance),
                     Extremum(9, 110.0, Resistance)])
         == [Level(100.5, Resistance, 2), Level(110.0, Resistance, 1)]
  {
    var e1 := Extremum(2, 100.0, Resistance);
    var e2 := Extremum(5, 101.0, Resistance);
    var e3 := Extremum(9, 110.0, Resistance);
    assert [e1][..0] == [];
    var c0: seq<Level> := [];
    assert Cluster([]) == c0;
    var c1 := Cluster([e1]);
    assert c1 == AddExtremum(c0, e1);
    assert c1 == [Level(100.0, Resistance, 1)];
    assert [e1, e2][..1] == [e1];
    var c2 := Cluster([e1, e2]);
    assert c2 == AddExtremum(c1, e2);
    assert FirstJoin(c1, e2, 0);
    assert c2 == [Level(100.5, Resistance, 2)];
    assert [e1, e2, e3][..2] == [e1, e2];
    assert Cluster([e1, e2, e3]) == AddExtremum(c2, e3);
    assert !Joins(c2[0], e3);
  }

  /** Sort key of `grouped.sort((a, b) => b.count - a.count)`: larger counts first. */
  function ByCountDescending(g: Level): real
  {
    CountKey(g.count)
  }

  /** The sort key shared by every group with `count == c`. */
  function CountKey(c: nat): real
  {
    -(c as real)
  }

  /** `l => l.type === k` */
  function IsKind(k: Kind): Level -> bool
  {
    (g: Level) => g.kind == k
  }

  /** `grouped.filter(l => l.type === k)` */
  function OfKind(groups: seq<Level>, k: Kind): seq<Level>
  {
    Filter(groups, IsKind(k))
  }

  /** A prefix of a list sorted by descending count holds the largest counts. */
  lemma PrefixHoldsLargest(of: seq<Level>, g: Level)
    requires SortedBy(of, ByCountDescending)
    requires g in of && |of| > PerKind && g !in of[..PerKind]
    ensures g.count <= of[PerKind - 1].count
  {
    var m :| 0 <= m < |of| && of[m] == g;
    assert m >= PerKind;
    assert ByCountDescending(of[PerKind - 1]) <= ByCountDescending(of[m]);
  }

  /** `r` is a choice of the two most frequent groups of kind `k`: at most two
      groups of that kind, larger counts first; a group of kind `k` is left out
      only when two others with at least its count are kept, so fewer than two
      are kept only when every group of that kind is; and among groups with the
      same count, the kept ones are the first discovered, in discovery order. */
  ghost predicate TopTwo(r: seq<Level>, groups: seq<Level>, k: Kind)
  {
    && |r| <= PerKind
    && (forall a :: 0 <= a < |r| ==> r[a].kind == k && r[a] in groups)
    && (forall a, b :: 0 <= a < b < |r| ==> r[a].count >= r[b].count)
    && (forall g :: g in groups && g.kind == k && g !in r ==>
          |r| == PerKind && g.count <= r[PerKind - 1].count)
    && (forall c: nat :: WithKey(r, ByCountDescending, CountKey(c))
                         <= WithKey(OfKind(groups, k), ByCountDescending, CountKey(c)))
  }

  /** The two most frequent levels of kind `k`. */
  function TopOfKind(groups: seq<Level>, k: Kind): (r: seq<Level>)
    ensures TopTwo(r, groups, k)
  {
    var ranked := SortBy(groups, ByCountDescending);
    var of := OfKind(ranked, k);
    FilterSorted(ranked, IsKind(k), ByCountDescending);
    SameMembers(groups, ranked);
    var r := FirstTwo(of);
    PrefixKeepsTieOrder(groups, k, r);
    r
  }

  /** Every prefix of the ranked groups of kind `k` holds, for each count, a
      prefix of the groups of kind `k` with that count in discovery order. */
  lemma PrefixKeepsTieOrder(groups: seq<Level>, k: Kind, r: seq<Level>)
    requires r <= OfKind(SortBy(groups, ByCountDescending), k)
    ensures forall c: nat :: WithKey(r, ByCountDescending, CountKey(c))
                             <= WithKey(OfKind(groups, k), ByCountDescending, CountKey(c))
  {
    var ranked := SortBy(groups, ByCountDescending);
    var of := OfKind(ranked, k);
    assert of == r + of[|r|..];
    forall c: nat
      ensures WithKey(r, ByCountDescending, CountKey(c))
              <= WithKey(OfKind(groups, k), ByCountDescending, CountKey(c))
    {
      WithKeyAppend(r, of[|r|..], ByCountDescending, CountKey(c));
      FilterWithKey(ranked, IsKind(k), ByCountDescending, CountKey(c));
      RankingKeepsDiscoveryOrder(groups, c);
      FilterWithKey(groups, IsKind(k), ByCountDescending, CountKey(c));
    }
  }

  /** `.slice(0, 2)` of a list ranked by count: the kept levels are in count
      order, and a level left out has no larger count than the second kept. */
  function FirstTwo(of: seq<Level>): (r: seq<Level>)
    requires SortedBy(of, ByCountDescending)
    ensures |r| == if |of| < PerKind then |of| else PerKind
    ensures r <= of
    ensures forall a, b :: 0 <= a < b < |r| ==> r[a].count >= r[b].count
    ensures forall g :: g in of && g !in r ==> |r| == PerKind && g.count <= r[PerKind - 1].count
  {
    var r := if |of| <= PerKind then of else of[..PerKind];
    forall a, b | 0 <= a < b < |r|
      ensures r[a].count >= r[b].count
    {
      assert ByCountDescending(of[a]) <= ByCountDescending(of[b]);
    }
    forall g | g in of && g !in r
      ensures |r| == PerKind && g.count <= r[PerKind - 1].count
    {
      PrefixHoldsLargest(of, g);
    }
    r
  }

  /** Ranking keeps groups with equal counts in the order they were discovered
      (`Array.prototype.sort` is stable). */
  lemma {:induction false} RankingKeepsDiscoveryOrder(groups: seq<Level>, c: nat)
    ensures WithKey(SortBy(groups, ByCountDescending), ByCountDescending, CountKey(c))
         == WithKey(groups, ByCountDescending, CountKey(c))
  {
    SortStable(groups, ByCountDescending, CountKey(c));
  }

  /** `findSupportResistance(prices, volumes)` of the detailed variant: the two
      most frequent support and the two most frequent resistance groups among
      the clustered extrema of the recent window. */
  function DetectLevels(closes: seq<real>, vols: seq<real>): (r: LevelLists)
    requires |vols| == |closes|
    ensures TopTwo(r.support, Cluster(Extrema(closes, vols)), Support)
    ensures TopTwo(r.resistance, Cluster(Extrema(closes, vols)), Resistance)
  {
    var groups := Cluster(Extrema(closes, vols));
    LevelLists(TopOfKind(groups, Support), TopOfKind(groups, Resistance))
  }

  /** A constant series yields no support and no resistance. */
  lemma FlatSeriesNoLevels(closes: seq<real>, vols: seq<real>, c: real)
    requires |vols| == |closes|
    requires forall j :: 0 <= j < |closes| ==> closes[j] == c
    ensures DetectLevels(closes, vols) == LevelLists([], [])
  {
    FlatSeriesNoExtrema(closes, vols, c);
  }
}

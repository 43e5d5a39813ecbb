/** The lightweight `findSupportResistance(prices, volumes)` of api/analyze.js:
    the ten heaviest-volume bars are the candidate levels; the support is the
    highest candidate price strictly below the current close and the resistance
    the lowest strictly above it, each `null` when there is none. */
module VolumeLevels {
  import opened Optional
  import opened Sorting

  /** One `{ price, volume }` of `priceVolume`. */
  datatype PriceVolume = PriceVolume(price: real, volume: real)

  datatype Nearest = Nearest(support: Option<real>, resistance: Option<real>)

  /** Candidates kept: `Math.min(10, priceVolume.length)`. */
  const TopCount: nat := 10

  /** `prices.map((price, i) => ({ price, volume: volumes[i] }))` */
  function Pair(closes: seq<real>, vols: seq<real>): (r: seq<PriceVolume>)
    requires |vols| == |closes|
    ensures |r| == |closes|
    ensures forall j :: 0 <= j < |r| ==> r[j] == PriceVolume(closes[j], vols[j])
  {
    seq(|closes|, j requires 0 <= j < |closes| => PriceVolume(closes[j], vols[j]))
  }

  /** Sort key of `(a, b) => b.volume - a.volume`: heavier first. */
  function ByVolumeDescending(e: PriceVolume): real
  {
    -e.volume
  }

  /** Sort key of `(a, b) => a.price - b.price`. */
  function ByPrice(e: PriceVolume): real
  {
    e.price
  }

  /** `priceVolume` sorted by volume, cut to its first `min(10, n)` entries: a
      sub-multiset of the input of that size, every copy left out has no more
      volume than any kept entry, and among entries of equal volume the kept
      ones are the earliest bars, in bar order. */
  function TopByVolume(pv: seq<PriceVolume>): (r: seq<PriceVolume>)
    ensures |r| == (if |pv| < TopCount then |pv| else TopCount)
    ensures multiset(r) <= multiset(pv)
    ensures forall x, a :: 0 <= a < |r| && multiset(r)[x] < multiset(pv)[x] ==>
              x.volume <= r[a].volume
    ensures forall v: real :: WithKey(r, ByVolumeDescending, v) <= WithKey(pv, ByVolumeDescending, v)
  {
    var ranked := SortBy(pv, ByVolumeDescending);
    var n := if |pv| < TopCount then |pv| else TopCount;
    PrefixKeepsHeaviest(pv, ranked, n);
    CutKeepsTieOrder(pv, n);
    ranked[..n]
  }

  /** Any prefix of the stable ranking holds, for each volume, the first entries
      of the input with that volume, in input order. */
  lemma CutKeepsTieOrder(pv: seq<PriceVolume>, n: nat)
    requires n <= |pv|
    ensures forall v: real :: WithKey(SortBy(pv, ByVolumeDescending)[..n], ByVolumeDescending, v)
                              <= WithKey(pv, ByVolumeDescending, v)
  {
    var ranked := SortBy(pv, ByVolumeDescending);
    assert ranked == ranked[..n] + ranked[n..];
    forall v: real
      ensures WithKey(ranked[..n], ByVolumeDescending, v) <= WithKey(pv, ByVolumeDescending, v)
    {
      WithKeyAppend(ranked[..n], ranked[n..], ByVolumeDescending, v);
      SortStable(pv, ByVolumeDescending, v);
    }
  }

  /** With every volume equal the cut keeps the first ten bars. */
  lemma EqualVolumesKeepEarliest(pv: seq<PriceVolume>, v: real)
    requires |pv| > TopCount
    requires forall j :: 0 <= j < |pv| ==> pv[j].volume == v
    ensures TopByVolume(pv) == pv[..TopCount]
  {
    var r := TopByVolume(pv);
    forall a | 0 <= a < |r|
      ensures r[a].volume == v
    {
      TopFromInput(pv, r[a]);
    }
    SameVolumeCut(r, pv, v);
  }

  /** A sequence of one volume whose entries of that volume form a prefix of
      another such sequence's is a prefix of it. */
  lemma SameVolumeCut(r: seq<PriceVolume>, pv: seq<PriceVolume>, v: real)
    requires forall j :: 0 <= j < |pv| ==> pv[j].volume == v
    requires forall a :: 0 <= a < |r| ==> r[a].volume == v
    requires WithKey(r, ByVolumeDescending, -v) <= WithKey(pv, ByVolumeDescending, -v)
    ensures r <= pv
  {
    WithKeyAll(pv, ByVolumeDescending, -v);
    WithKeyAll(r, ByVolumeDescending, -v);
  }

  /** Cutting a heaviest-first permutation of `pv` after `n` entries keeps a
      sub-multiset, and whatever is cut is no heavier than what is kept. */
  lemma PrefixKeepsHeaviest(pv: seq<PriceVolume>, ranked: seq<PriceVolume>, n: nat)
    requires SortedBy(ranked, ByVolumeDescending) && multiset(ranked) == multiset(pv)
    requires n <= |ranked|
    ensures multiset(ranked[..n]) <= multiset(pv)
    ensures forall x, a :: 0 <= a < n && multiset(ranked[..n])[x] < multiset(pv)[x] ==>
              x.volume <= ranked[..n][a].volume
  {
    var r := ranked[..n];
    var rest := ranked[n..];
    assert ranked == r + rest;
    assert multiset(ranked) == multiset(r) + multiset(rest);
    forall x, a | 0 <= a < n && multiset(r)[x] < multiset(pv)[x]
      ensures x.volume <= r[a].volume
    {
      assert x in multiset(rest);
      PrefixDominates(ranked, n, x, a);
    }
  }

  /** In a sequence sorted heaviest first, an entry past position `n` is no
      heavier than any entry before it. */
  lemma PrefixDominates(ranked: seq<PriceVolume>, n: nat, x: PriceVolume, a: nat)
    requires SortedBy(ranked, ByVolumeDescending)
    requires a < n <= |ranked| && x in multiset(ranked[n..])
    ensures x.volume <= ranked[a].volume
  {
    var rest := ranked[n..];
    assert x in rest;
    var m :| 0 <= m < |rest| && rest[m] == x;
    assert ranked[n + m] == x;
    assert ByVolumeDescending(ranked[a]) <= ByVolumeDescending(ranked[n + m]);
  }

  /** Every candidate is one of the input entries. */
  lemma TopFromInput(pv: seq<PriceVolume>, x: PriceVolume)
    requires x in TopByVolume(pv)
    ensures x in pv
  {
    assert x in multiset(TopByVolume(pv));
  }

  /** `support[support.length - 1].price` over the candidates sorted by price:
      the highest candidate price strictly below `cur`. */
  function SupportOf(top: seq<PriceVolume>, cur: real): (r: Option<real>)
    ensures r.Some? <==> exists x :: x in top && x.price < cur
    ensures r.Some? ==>
              && r.value < cur
              && (exists x :: x in top && x.price == r.value)
              && (forall x :: x in top && x.price < cur ==> x.price <= r.value)
  {
    var byPrice := SortBy(top, ByPrice);
    SameMembers(top, byPrice);
    var below := Filter(byPrice, (x: PriceVolume) => x.price < cur);
    FilterSorted(byPrice, (x: PriceVolume) => x.price < cur, ByPrice);
    LastIsLargest(below);
    if |below| > 0 then
      assert below[|below| - 1] in top;
      Some(below[|below| - 1].price)
    else None
  }

  /** `resistance[0].price` over the candidates sorted by price: the lowest
      candidate price strictly above `cur`. */
  function ResistanceOf(top: seq<PriceVolume>, cur: real): (r: Option<real>)
    ensures r.Some? <==> exists x :: x in top && x.price > cur
    ensures r.Some? ==>
              && r.value > cur
              && (exists x :: x in top && x.price == r.value)
              && (forall x :: x in top && x.price > cur ==> r.value <= x.price)
  {
    var byPrice := SortBy(top, ByPrice);
    SameMembers(top, byPrice);
    var above := Filter(byPrice, (x: PriceVolume) => x.price > cur);
    FilterSorted(byPrice, (x: PriceVolume) => x.price > cur, ByPrice);
    FirstIsSmallest(above);
    if |above| > 0 then
      assert above[0] in top;
      Some(above[0].price)
    else None
  }

  lemma LastIsLargest(s: seq<PriceVolume>)
    requires SortedBy(s, ByPrice)
    ensures |s| > 0 ==> forall x :: x in s ==> x.price <= s[|s| - 1].price
  {
    forall x | x in s && |s| > 0
      ensures x.price <= s[|s| - 1].price
    {
      var m :| 0 <= m < |s| && s[m] == x;
      if m < |s| - 1 {
        assert ByPrice(s[m]) <= ByPrice(s[|s| - 1]);
      }
    }
  }

  lemma FirstIsSmallest(s: seq<PriceVolume>)
    requires SortedBy(s, ByPrice)
    ensures |s| > 0 ==> forall x :: x in s ==> s[0].price <= x.price
  {
    forall x | x in s && |s| > 0
      ensures s[0].price <= x.price
    {
      var m :| 0 <= m < |s| && s[m] == x;
      if m > 0 {
        assert ByPrice(s[0]) <= ByPrice(s[m]);
      }
    }
  }

  /** `findSupportResistance(prices, volumes)` around the last close; every
      caller has at least one bar. */
  function FindLevels(closes: seq<real>, vols: seq<real>): (r: Nearest)
    requires |vols| == |closes| > 0
    ensures r.support.Some? ==> r.support.value < closes[|closes| - 1]
    ensures r.resistance.Some? ==> r.resistance.value > closes[|closes| - 1]
  {
    var top := TopByVolume(Pair(closes, vols));
    var cur := closes[|closes| - 1];
    Nearest(SupportOf(top, cur), ResistanceOf(top, cur))
  }

  /** Every level is the close of some bar of the series. */
  lemma LevelsAreCloses(closes: seq<real>, vols: seq<real>)
    requires |vols| == |closes| > 0
    ensures var r := FindLevels(closes, vols);
            && (r.support.Some? ==> exists j :: 0 <= j < |closes| && closes[j] == r.support.value)
            && (r.resistance.Some? ==> exists j :: 0 <= j < |closes| && closes[j] == r.resistance.value)
  {
    var pv := Pair(closes, vols);
    var top := TopByVolume(pv);
    var cur := closes[|closes| - 1];
    var s := SupportOf(top, cur);
    var t := ResistanceOf(top, cur);
    if s.Some? {
      CandidateIsClose(closes, vols, s.value);
    }
    if t.Some? {
      CandidateIsClose(closes, vols, t.value);
    }
  }

  /** A price carried by some candidate is the close of some bar. */
  lemma CandidateIsClose(closes: seq<real>, vols: seq<real>, p: real)
    requires |vols| == |closes|
    requires exists x :: x in TopByVolume(Pair(closes, vols)) && x.price == p
    ensures exists j :: 0 <= j < |closes| && closes[j] == p
  {
    var pv := Pair(closes, vols);
    var x :| x in TopByVolume(pv) && x.price == p;
    TopFromInput(pv, x);
    var j :| 0 <= j < |pv| && pv[j] == x;
    assert closes[j] == p;
  }

  /** With no more than ten bars every bar is a candidate, so the support is the
      highest close below the current one. */
  lemma ShortSeriesUsesAllBars(closes: seq<real>, vols: seq<real>, j: nat)
    requires |vols| == |closes| > 0 && |closes| <= TopCount
    requires j < |closes| && closes[j] < closes[|closes| - 1]
    ensures FindLevels(closes, vols).support.Some?
    ensures closes[j] <= FindLevels(closes, vols).support.value
  {
    var pv := Pair(closes, vols);
    var top := TopByVolume(pv);
    assert multiset(top) == multiset(pv) by {
      assert |multiset(top)| == |multiset(pv)|;
      MultisetSubsetSameSize(multiset(top), multiset(pv));
    }
    assert pv[j] in multiset(top);
    assert pv[j] in top;
  }

  lemma MultisetSubsetSameSize<T>(a: multiset<T>, b: multiset<T>)
    requires a <= b && |a| == |b|
    ensures a == b
  {
    var d := b - a;
    assert b == a + d;
    assert |d| == 0;
  }
}

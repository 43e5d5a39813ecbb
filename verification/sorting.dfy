/** JavaScript's `Array.prototype.sort` with a numeric comparator `(a, b) => key(a) - key(b)`.
    The language requires that sort to be stable, and a stable sort under a
    fixed key has exactly one possible output, so a stable insertion sort
    computes the same array as the engine's sort. */
module Sorting {

  /** Keys never decrease from left to right. */
  ghost predicate SortedBy<T>(s: seq<T>, key: T -> real)
  {
    forall i, j :: 0 <= i < j < |s| ==> key(s[i]) <= key(s[j])
  }

  /** The elements of `s` whose key is exactly `k`, in their order in `s`. */
  function WithKey<T>(s: seq<T>, key: T -> real, k: real): seq<T>
    decreases |s|
  {
    if |s| == 0 then []
    else WithKey(s[..|s| - 1], key, k) + (if key(s[|s| - 1]) == k then [s[|s| - 1]] else [])
  }

  lemma {:induction false} WithKeyAppend<T>(a: seq<T>, b: seq<T>, key: T -> real, k: real)
    ensures WithKey(a + b, key, k) == WithKey(a, key, k) + WithKey(b, key, k)
    decreases |b|
  {
    if |b| == 0 {
      assert a + b == a;
    } else {
      assert (a + b)[..|a + b| - 1] == a + b[..|b| - 1];
      WithKeyAppend(a, b[..|b| - 1], key, k);
    }
  }

  lemma {:induction false} WithKeyNone<T>(s: seq<T>, key: T -> real, k: real)
    requires forall i :: 0 <= i < |s| ==> key(s[i]) != k
    ensures WithKey(s, key, k) == []
    decreases |s|
  {
    if |s| > 0 {
      WithKeyNone(s[..|s| - 1], key, k);
    }
  }

  lemma {:induction false} WithKeyAll<T>(s: seq<T>, key: T -> real, k: real)
    requires forall i :: 0 <= i < |s| ==> key(s[i]) == k
    ensures WithKey(s, key, k) == s
    decreases |s|
  {
    if |s| > 0 {
      WithKeyAll(s[..|s| - 1], key, k);
    }
  }

  /** Places `x` after every element whose key is not greater than its own. */
  function Insert<T>(x: T, s: seq<T>, key: T -> real): (r: seq<T>)
    ensures |r| == |s| + 1
    ensures multiset(r) == multiset(s) + multiset{x}
    decreases |s|
  {
    if |s| == 0 then [x]
    else if key(x) < key(s[0]) then [x] + s
    else
      assert s == [s[0]] + s[1..];
      [s[0]] + Insert(x, s[1..], key)
  }

  /** Inserting into a sorted sequence keeps it sorted. */
  lemma {:induction false} InsertSorted<T>(x: T, s: seq<T>, key: T -> real)
    requires SortedBy(s, key)
    ensures SortedBy(Insert(x, s, key), key)
    decreases |s|
  {
    if |s| > 0 && key(s[0]) <= key(x) {
      SortedTail(s, key);
      InsertSorted(x, s[1..], key);
      InsertAbove(x, s, key);
      SortedCons(s[0], Insert(x, s[1..], key), key);
    } else if |s| > 0 {
      SortedCons(x, s, key);
    }
  }

  /** Dropping the head of a sorted sequence leaves it sorted. */
  lemma SortedTail<T>(s: seq<T>, key: T -> real)
    requires SortedBy(s, key) && |s| > 0
    ensures SortedBy(s[1..], key)
  {
    var tail := s[1..];
    forall i, j | 0 <= i < j < |tail|
      ensures key(tail[i]) <= key(tail[j])
    {
      assert tail[i] == s[i + 1] && tail[j] == s[j + 1];
    }
  }

  /** Every element of `Insert(x, s[1..])` has a key at least that of `s[0]` when
      `x` does. */
  lemma InsertAbove<T>(x: T, s: seq<T>, key: T -> real)
    requires SortedBy(s, key) && |s| > 0 && key(s[0]) <= key(x)
    ensures forall i :: 0 <= i < |s| ==> key(s[0]) <= key(Insert(x, s[1..], key)[i])
  {
    var rest := Insert(x, s[1..], key);
    forall i | 0 <= i < |rest|
      ensures key(s[0]) <= key(rest[i])
    {
      assert rest[i] in multiset(rest);
      assert rest[i] in multiset(s[1..]) + multiset{x};
      if rest[i] != x {
        assert rest[i] in s[1..];
      }
    }
  }

  /** A head no greater than any key of a sorted tail gives a sorted sequence. */
  lemma SortedCons<T>(y: T, t: seq<T>, key: T -> real)
    requires SortedBy(t, key)
    requires forall i :: 0 <= i < |t| ==> key(y) <= key(t[i])
    ensures SortedBy([y] + t, key)
  {
    var r := [y] + t;
    forall i, j | 0 <= i < j < |r|
      ensures key(r[i]) <= key(r[j])
    {
      assert r[j] == t[j - 1];
      if i > 0 {
        assert r[i] == t[i - 1];
      }
    }
  }

  /** Insertion sort from the left, the stable order the engine's sort produces. */
  function SortBy<T>(s: seq<T>, key: T -> real): (r: seq<T>)
    ensures |r| == |s|
    ensures multiset(r) == multiset(s)
    ensures SortedBy(r, key)
    decreases |s|
  {
    if |s| == 0 then []
    else
      assert s == s[..|s| - 1] + [s[|s| - 1]];
      var sorted := SortBy(s[..|s| - 1], key);
      InsertSorted(s[|s| - 1], sorted, key);
      Insert(s[|s| - 1], sorted, key)
  }

  lemma WithKeySingle<T>(x: T, key: T -> real, k: real)
    ensures WithKey([x], key, k) == (if key(x) == k then [x] else [])
  {
    assert [x][..0] == [];
  }

  /** Prepending an element smaller than every key of a sorted sequence. */
  lemma InsertFront<T>(x: T, s: seq<T>, key: T -> real, k: real)
    requires SortedBy(s, key)
    requires |s| > 0 && key(x) < key(s[0])
    ensures WithKey([x] + s, key, k) == WithKey(s, key, k) + (if key(x) == k then [x] else [])
  {
    WithKeySingle(x, key, k);
    WithKeyAppend([x], s, key, k);
    if key(x) == k {
      forall i | 0 <= i < |s|
        ensures key(s[i]) != k
      {
        if i > 0 {
          assert key(s[0]) <= key(s[i]);
        }
      }
      WithKeyNone(s, key, k);
    }
  }

  /** Inserting `x` appends it to the run of elements that share its key. */
  lemma {:induction false} InsertStable<T>(x: T, s: seq<T>, key: T -> real, k: real)
    requires SortedBy(s, key)
    ensures WithKey(Insert(x, s, key), key, k)
         == WithKey(s, key, k) + (if key(x) == k then [x] else [])
    decreases |s|
  {
    if |s| == 0 {
      WithKeySingle(x, key, k);
    } else if key(x) < key(s[0]) {
      InsertFront(x, s, key, k);
    } else {
      var tail := s[1..];
      var rest := Insert(x, tail, key);
      assert s == [s[0]] + tail;
      assert Insert(x, s, key) == [s[0]] + rest;
      SortedTail(s, key);
      InsertStable(x, tail, key, k);
      WithKeyCons(s[0], tail, rest, key, k, if key(x) == k then [x] else []);
    }
  }

  /** Putting the same head in front of two sequences keeps a relation between
      their runs of key `k`. */
  lemma WithKeyCons<T>(y: T, t: seq<T>, u: seq<T>, key: T -> real, k: real, extra: seq<T>)
    requires WithKey(u, key, k) == WithKey(t, key, k) + extra
    ensures WithKey([y] + u, key, k) == WithKey([y] + t, key, k) + extra
  {
    WithKeyAppend([y], u, key, k);
    WithKeyAppend([y], t, key, k);
    assert WithKey([y], key, k) + (WithKey(t, key, k) + extra)
        == (WithKey([y], key, k) + WithKey(t, key, k)) + extra;
  }

  /** Stability: elements with equal keys keep their input order. */
  lemma {:induction false} SortStable<T>(s: seq<T>, key: T -> real, k: real)
    ensures WithKey(SortBy(s, key), key, k) == WithKey(s, key, k)
    decreases |s|
  {
    if |s| > 0 {
      SortStable(s[..|s| - 1], key, k);
      InsertStable(s[|s| - 1], SortBy(s[..|s| - 1], key), key, k);
    }
  }

  /** `s.filter(keep)`: the elements that pass, in their order in `s`. */
  function Filter<T>(s: seq<T>, keep: T -> bool): (r: seq<T>)
    ensures |r| <= |s|
    ensures |s| == 1 ==> r == (if keep(s[0]) then s else [])
    ensures forall a :: 0 <= a < |r| ==> keep(r[a]) && r[a] in s
    ensures forall x :: x in s && keep(x) ==> x in r
    decreases |s|
  {
    if |s| == 0 then []
    else
      var init := s[..|s| - 1];
      var last := s[|s| - 1];
      assert forall x :: x in s ==> x in init || x == last;
      Filter(init, keep) + (if keep(last) then [last] else [])
  }

  /** Filtering commutes with concatenation: the kept elements stay in their
      order and each is kept as often as it occurs. */
  lemma {:induction false} FilterAppend<T>(a: seq<T>, b: seq<T>, keep: T -> bool)
    ensures Filter(a + b, keep) == Filter(a, keep) + Filter(b, keep)
    decreases |b|
  {
    if |b| == 0 {
      assert a + b == a;
    } else {
      assert (a + b)[..|a + b| - 1] == a + b[..|b| - 1];
      FilterAppend(a, b[..|b| - 1], keep);
    }
  }

  /** Selecting one key's elements commutes with filtering. */
  lemma {:induction false} FilterWithKey<T>(s: seq<T>, keep: T -> bool, key: T -> real, k: real)
    ensures WithKey(Filter(s, keep), key, k) == Filter(WithKey(s, key, k), keep)
    decreases |s|
  {
    if |s| > 0 {
      var init := s[..|s| - 1];
      var last := s[|s| - 1];
      FilterWithKey(init, keep, key, k);
      var kept := if keep(last) then [last] else [];
      var keyed := if key(last) == k then [last] else [];
      WithKeyAppend(Filter(init, keep), kept, key, k);
      FilterAppend(WithKey(init, key, k), keyed, keep);
      if keep(last) {
        WithKeySingle(last, key, k);
      }
    }
  }

  /** Filtering keeps a sorted sequence sorted. */
  lemma {:induction false} FilterSorted<T>(s: seq<T>, keep: T -> bool, key: T -> real)
    requires SortedBy(s, key)
    ensures SortedBy(Filter(s, keep), key)
    decreases |s|
  {
    if |s| > 0 {
      var init := s[..|s| - 1];
      assert SortedBy(init, key);
      FilterSorted(init, keep, key);
      var r := Filter(s, keep);
      var ri := Filter(init, keep);
      forall a, b | 0 <= a < b < |r|
        ensures key(r[a]) <= key(r[b])
      {
        if b >= |ri| {
          assert r[a] in init;
          var m :| 0 <= m < |init| && init[m] == r[a];
          assert s[m] == r[a];
        } else {
          assert r[a] == ri[a] && r[b] == ri[b];
        }
      }
    }
  }

  /** A permutation has the same members. */
  lemma SameMembers<T>(a: seq<T>, b: seq<T>)
    requires multiset(a) == multiset(b)
    ensures forall x :: x in a <==> x in b
  {
    assert forall x :: x in a <==> x in multiset(a);
    assert forall x :: x in b <==> x in multiset(b);
  }
}

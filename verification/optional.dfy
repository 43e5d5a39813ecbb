/** Indicator slots that JavaScript leaves as an array hole (`undefined`) or fills
    with `NaN`. Both are `None` here, and every relational comparison that has a
    `None` operand is false, exactly as JavaScript's `<`, `>`, `<=` are false on
    `undefined` and `NaN`. */
module Optional {

  datatype Option<+T> = None | Some(value: T)

  /** JavaScript `a < b`. */
  predicate Lt(a: Option<real>, b: Option<real>)
  {
    a.Some? && b.Some? && a.value < b.value
  }

  /** JavaScript `a > b`. */
  predicate Gt(a: Option<real>, b: Option<real>)
  {
    Lt(b, a)
  }

  /** JavaScript `a <= b` (false, not true, when either side is undefined). */
  predicate Le(a: Option<real>, b: Option<real>)
  {
    a.Some? && b.Some? && a.value <= b.value
  }

  /** JavaScript `a < c` against a numeric literal. */
  predicate Below(a: Option<real>, c: real)
  {
    Lt(a, Some(c))
  }

  /** JavaScript `a > c` against a numeric literal. */
  predicate Above(a: Option<real>, c: real)
  {
    Gt(a, Some(c))
  }

  /** JavaScript truthiness of a number slot: `undefined`, `NaN` and `0` are falsy. */
  predicate Truthy(a: Option<real>)
  {
    a.Some? && a.value != 0.0
  }

  /** JavaScript `a - b`, where an undefined operand yields `NaN`. */
  function Minus(a: Option<real>, b: Option<real>): Option<real>
  {
    if a.Some? && b.Some? then Some(a.value - b.value) else None
  }

  /** Last slot of an index-aligned array, `None` for an empty one. */
  function LastSlot<T>(a: seq<Option<T>>): Option<T>
  {
    if |a| == 0 then None else a[|a| - 1]
  }

  /** Slot `i` of an array, `None` outside it (JavaScript `a[-1]` is undefined). */
  function SlotAt<T>(a: seq<Option<T>>, i: int): Option<T>
  {
    if 0 <= i < |a| then a[i] else None
  }

  /** JavaScript `a.length` of an array filled by index assignment: one past the
      last assigned slot, 0 when none was assigned. */
  function JsLength<T>(a: seq<Option<T>>): (n: nat)
    ensures n <= |a|
    ensures n > 0 ==> a[n - 1].Some?
    ensures forall j :: n <= j < |a| ==> a[j].None?
    decreases |a|
  {
    if |a| == 0 then 0
    else if a[|a| - 1].Some? then |a|
    else JsLength(a[..|a| - 1])
  }

  /** JavaScript `a[a.length - 1]`: the last assigned slot, `undefined` when the
      array is empty. */
  function JsLast<T>(a: seq<Option<T>>): Option<T>
  {
    var n := JsLength(a);
    if n == 0 then None else a[n - 1]
  }

  /** For an array assigned exactly on a suffix `[s, |a|)`, reading the last
      element is reading slot `|a| - 1`: either that slot is assigned or nothing
      is. */
  lemma JsLastOfSuffix<T>(a: seq<Option<T>>, s: nat)
    requires forall j :: 0 <= j < |a| ==> (a[j].Some? <==> j >= s)
    ensures JsLast(a) == LastSlot(a)
  {
    if |a| > 0 && a[|a| - 1].None? {
      assert forall j :: 0 <= j < |a| ==> a[j].None?;
    }
  }

  /** The values of the defined slots, in slot order: the elements a loop pushes
      when it pushes only the defined ones (`if (x) results.push(x)`). */
  function Present<T>(a: seq<Option<T>>): (r: seq<T>)
    ensures |r| <= |a|
    ensures forall t :: t in r ==> exists k :: 0 <= k < |a| && a[k] == Some(t)
    decreases |a|
  {
    if |a| == 0 then []
    else
      var init := a[..|a| - 1];
      var before := Present(init);
      assert forall t :: t in before ==> exists k :: 0 <= k < |init| && a[k] == Some(t);
      before + (if a[|a| - 1].Some? then [a[|a| - 1].value] else [])
  }

  /** Every defined slot's value is kept. */
  lemma {:induction false} PresentComplete<T>(a: seq<Option<T>>, k: nat)
    requires k < |a| && a[k].Some?
    ensures a[k].value in Present(a)
    decreases |a|
  {
    if k < |a| - 1 {
      PresentComplete(a[..|a| - 1], k);
    }
  }

  /** Keeping the defined slots commutes with concatenation, so their order is kept. */
  lemma {:induction false} PresentAppend<T>(a: seq<Option<T>>, b: seq<Option<T>>)
    ensures Present(a + b) == Present(a) + Present(b)
    decreases |b|
  {
    if |b| == 0 {
      assert a + b == a;
    } else {
      assert (a + b)[..|a + b| - 1] == a + b[..|b| - 1];
      PresentAppend(a, b[..|b| - 1]);
    }
  }

  /** A value is kept exactly when some slot holds it. */
  lemma PresentMembers<T>(a: seq<Option<T>>)
    ensures forall x :: x in Present(a) <==> exists k :: 0 <= k < |a| && a[k] == Some(x)
  {
    forall x, k | 0 <= k < |a| && a[k] == Some(x)
      ensures x in Present(a)
    {
      PresentComplete(a, k);
    }
  }
}

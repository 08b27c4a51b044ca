/** Quintile scores: customers sorted by a value are scored 1 to 5 by their position. */
module Quintiles {
  import opened Totals

  // ---------------------------------------------------------------- sorting

  /** `order` lists row indices by ascending value. */
  predicate Ascending(values: seq<real>, order: seq<nat>) {
    && (forall i :: 0 <= i < |order| ==> order[i] < |values|)
    && forall i, j :: 0 <= i < j < |order| ==> values[order[i]] <= values[order[j]]
  }

  /** Stable insertion: a later index goes behind equal values. */
  function InsertIndex(values: seq<real>, k: nat, order: seq<nat>): (s: seq<nat>)
    requires k < |values| && k !in order && Ascending(values, order) && Distinct(order)
    ensures Ascending(values, s) && Distinct(s) && |s| == |order| + 1
    ensures forall x :: x in s <==> x == k || x in order
  {
    if order == [] then [k]
    else if values[k] < values[order[0]] then [k] + order
    else
      assert forall x :: x in order <==> x == order[0] || x in order[1..];
      var rest := InsertIndex(values, k, order[1..]);
      assert forall i :: 0 <= i < |rest| ==> rest[i] in rest;
      [order[0]] + rest
  }

  function SortIndices(values: seq<real>, n: nat): (order: seq<nat>)
    requires n <= |values|
    ensures Ascending(values, order) && Distinct(order) && |order| == n
    ensures forall x: nat :: x in order <==> x < n
  {
    if n == 0 then [] else InsertIndex(values, n - 1, SortIndices(values, n - 1))
  }

  // ---------------------------------------------------------------- scoring

  /** Quintile of position `i` of `n`, in the service's own arithmetic. */
  function Quintile(i: nat, n: nat): int
    requires i < n
  {
    Min(5, (i as real / n as real * 5.0).Floor + 1)
  }

  function Score(i: nat, n: nat, invert: bool): int
    requires i < n
  {
    if invert then 6 - Quintile(i, n) else Quintile(i, n)
  }

  /** Every position's score stands at the row that is sorted there. */
  predicate Scored(values: seq<real>, scores: seq<int>, invert: bool) {
    var order := SortIndices(values, |values|);
    |scores| == |values| && forall i :: 0 <= i < |order| ==> scores[order[i]] == Score(i, |values|, invert)
  }

  method ScoreQuintile(values: seq<real>, scores: array<int>, invert: bool)
    requires scores.Length == |values|
    modifies scores
    ensures Scored(values, scores[..], invert)
  {
    var sorted := SortIndices(values, |values|);
    var n := if |sorted| == 0 then 1 else |sorted|;
    for i := 0 to |sorted|
      invariant forall k :: 0 <= k < i ==> scores[sorted[k]] == Score(k, |values|, invert)
    {
      var q := Min(5, (i as real / n as real * 5.0).Floor + 1);
      scores[sorted[i]] := if invert then 6 - q else q;
    }
  }

  // ---------------------------------------------------------------- laws

  /** First position of the group after quintile `q`. */
  function Bound(q: nat, n: nat): nat {
    (q * n + 4) / 5
  }

  lemma FloorOfShare(i: nat, n: nat)
    requires i < n
    ensures (i as real / n as real * 5.0).Floor == 5 * i / n
  {
    var m := 5 * i / n;
    RealShare(i as real, n as real);
    DivBounds(5 * i, n);
    ScaledBounds(m, n, 5 * i, i as real / n as real * 5.0);
    FloorIs(i as real / n as real * 5.0, m);
  }

  lemma DivBounds(a: nat, n: nat)
    requires n > 0
    ensures a / n * n <= a < (a / n + 1) * n
  {
  }

  lemma ScaledBounds(m: nat, n: nat, a: nat, x: real)
    requires n > 0 && x * n as real == a as real && m * n <= a < (m + 1) * n
    ensures m as real <= x < (m + 1) as real
  {
    CastProduct(m, n);
    CastProduct(m + 1, n);
    Cancel(m as real, x, n as real);
    Cancel((m + 1) as real, x, n as real);
  }

  lemma RealShare(i: real, n: real)
    requires n > 0.0
    ensures i / n * 5.0 * n == 5.0 * i
  {
    var q := i / n;
    assert q * n == i;
    assert q * 5.0 * n == 5.0 * (q * n);
  }

  lemma FloorIs(x: real, m: int)
    requires m as real <= x < (m + 1) as real
    ensures x.Floor == m
  {
  }

  lemma {:induction false} CastProduct(m: nat, n: nat)
    ensures (m * n) as real == m as real * n as real
  {
    if m > 0 {
      CastProduct(m - 1, n);
      assert m * n == (m - 1) * n + n;
      assert m as real * n as real == (m - 1) as real * n as real + n as real;
    }
  }

  lemma Cancel(a: real, b: real, n: real)
    requires n > 0.0
    ensures a * n <= b * n <==> a <= b
  {
    assert a > b ==> (a - b) * n > 0.0;
    assert a <= b ==> (b - a) * n >= 0.0;
  }

  /** The cap at 5 never acts. */
  lemma {:induction false} ClampNeverActs(i: nat, n: nat)
    requires i < n
    ensures Quintile(i, n) == 5 * i / n + 1 && 1 <= Quintile(i, n) <= 5
  {
    FloorOfShare(i, n);
    assert 5 * i < 5 * n;
    DivBelow(5 * i, n, 5);
  }

  lemma {:induction false} DivBelow(a: nat, n: nat, q: nat)
    requires n > 0
    ensures a / n < q <==> a < q * n
  {
    var d := a / n;
    DivBounds(a, n);
    if d < q {
      assert (d + 1) * n <= q * n;
    } else {
      assert q * n <= d * n;
    }
  }

  /** Quintile `q` is a run of positions. */
  lemma QuintileIs(i: nat, n: nat, q: nat)
    requires i < n && 1 <= q <= 5
    ensures Quintile(i, n) == q <==> Bound(q - 1, n) <= i < Bound(q, n)
  {
    ClampNeverActs(i, n);
    DivBelow(5 * i, n, q);
    DivBelow(5 * i, n, q - 1);
    assert 5 * i < q * n <==> i < Bound(q, n);
    assert 5 * i < (q - 1) * n <==> i < Bound(q - 1, n);
  }

  /** Rows with a given score. */
  ghost function Group(scores: seq<int>, s: int): (g: set<nat>)
    ensures forall k: nat :: k in g <==> k < |scores| && scores[k] == s
  {
    set k: nat | k < |scores| && scores[k] == s
  }

  ghost function Image(order: seq<nat>, lo: nat, hi: nat): set<nat>
    requires lo <= hi <= |order|
  {
    if lo == hi then {} else Image(order, lo, hi - 1) + {order[hi - 1]}
  }

  lemma {:induction false} ImageHas(order: seq<nat>, lo: nat, hi: nat, i: nat)
    requires lo <= hi <= |order| && Distinct(order) && i < |order|
    ensures order[i] in Image(order, lo, hi) <==> lo <= i < hi
  {
    if lo < hi {
      ImageHas(order, lo, hi - 1, i);
    }
  }

  lemma {:induction false} ImageIn(order: seq<nat>, lo: nat, hi: nat, x: nat)
    requires lo <= hi <= |order| && x in Image(order, lo, hi)
    ensures x in order
  {
    if x != order[hi - 1] {
      ImageIn(order, lo, hi - 1, x);
    }
  }

  lemma {:induction false} ImageSize(order: seq<nat>, lo: nat, hi: nat)
    requires lo <= hi <= |order| && Distinct(order)
    ensures |Image(order, lo, hi)| == hi - lo
  {
    if lo < hi {
      ImageSize(order, lo, hi - 1);
      ImageHas(order, lo, hi - 1, hi - 1);
    }
  }

  lemma BoundsOrdered(n: nat, q: nat)
    requires 1 <= q <= 5
    ensures Bound(q - 1, n) <= Bound(q, n) <= n
    ensures n / 5 <= Bound(q, n) - Bound(q - 1, n) <= (n + 4) / 5
  {
  }

  /** The group of quintile `q` is a run of the sorted rows. */
  lemma GroupSize(values: seq<real>, scores: seq<int>, invert: bool, q: nat)
    requires Scored(values, scores, invert) && 1 <= q <= 5
    ensures |Group(scores, if invert then 6 - q else q)| == Bound(q, |values|) - Bound(q - 1, |values|)
  {
    var n := |values|;
    var order := SortIndices(values, n);
    var lo, hi := Bound(q - 1, n), Bound(q, n);
    BoundsOrdered(n, q);
    ImageSize(order, lo, hi);
    var s := if invert then 6 - q else q;
    forall k: nat ensures k in Group(scores, s) <==> k in Image(order, lo, hi) {
      if k < n {
        assert k in order;
        var i :| 0 <= i < n && order[i] == k;
        QuintileIs(i, n, q);
        ImageHas(order, lo, hi, i);
      } else if k in Image(order, lo, hi) {
        ImageIn(order, lo, hi, k);
      }
    }
    assert Group(scores, s) == Image(order, lo, hi);
  }

  /** Scores lie between 1 and 5, a strictly larger value never scores lower (never higher
      when inverted), and any two of the five groups differ in size by at most one. */
  lemma ScoreLaw(values: seq<real>, scores: seq<int>, invert: bool)
    requires Scored(values, scores, invert)
    ensures forall k :: 0 <= k < |scores| ==> 1 <= scores[k] <= 5
    ensures forall j, k :: 0 <= j < |scores| && 0 <= k < |scores| && values[j] < values[k] ==>
      if invert then scores[j] >= scores[k] else scores[j] <= scores[k]
    ensures forall s, t :: 1 <= s <= 5 && 1 <= t <= 5 ==> |Group(scores, s)| <= |Group(scores, t)| + 1
  {
    forall k | 0 <= k < |scores| ensures 1 <= scores[k] <= 5 {
      var i := PositionOf(values, scores, invert, k);
      ClampNeverActs(i, |values|);
    }
    forall j, k | 0 <= j < |scores| && 0 <= k < |scores| && values[j] < values[k]
      ensures if invert then scores[j] >= scores[k] else scores[j] <= scores[k]
    {
      LargerNeverLower(values, scores, invert, j, k);
    }
    forall s, t | 1 <= s <= 5 && 1 <= t <= 5 ensures |Group(scores, s)| <= |Group(scores, t)| + 1 {
      GroupSize(values, scores, invert, if invert then 6 - s else s);
      GroupSize(values, scores, invert, if invert then 6 - t else t);
      BoundsOrdered(|values|, if invert then 6 - s else s);
      BoundsOrdered(|values|, if invert then 6 - t else t);
    }
  }

  lemma {:induction false} PositionOf(values: seq<real>, scores: seq<int>, invert: bool, k: nat) returns (i: nat)
    requires Scored(values, scores, invert) && k < |scores|
    ensures i < |values| && SortIndices(values, |values|)[i] == k && scores[k] == Score(i, |values|, invert)
  {
    var order := SortIndices(values, |values|);
    assert k in order;
    i :| 0 <= i < |order| && order[i] == k;
  }

  lemma LargerNeverLower(values: seq<real>, scores: seq<int>, invert: bool, j: nat, k: nat)
    requires Scored(values, scores, invert) && j < |scores| && k < |scores| && values[j] < values[k]
    ensures if invert then scores[j] >= scores[k] else scores[j] <= scores[k]
  {
    var n := |values|;
    var a := PositionOf(values, scores, invert, j);
    var b := PositionOf(values, scores, invert, k);
    assert a < b;
    ClampNeverActs(a, n);
    ClampNeverActs(b, n);
    DivMonotone(5 * a, 5 * b, n);
  }

  lemma {:induction false} DivMonotone(a: nat, b: nat, n: nat)
    requires a <= b && n > 0
    ensures a / n <= b / n
  {
    DivBelow(a, n, b / n + 1);
    DivBelow(b, n, b / n + 1);
  }
}

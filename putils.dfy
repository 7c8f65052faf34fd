/** Numeric helpers of the curve code (`src/utils/putils.py`): scaling by the
    maximum, the finite-difference derivative with its midpoints, and the
    nearest element of an array. */
module PUtils {
  import opened Wrappers
  import opened Seqs

  ghost predicate StrictlyIncreasing(s: seq<real>)
  {
    forall i, j :: 0 <= i < j < |s| ==> s[i] < s[j]
  }

  ghost predicate NonDecreasingReals(s: seq<real>)
  {
    forall i, j :: 0 <= i < j < |s| ==> s[i] <= s[j]
  }

  /** numpy's `max` of a non-empty array. */
  function Max(s: seq<real>): (m: real)
    requires |s| > 0
    ensures m in s
    ensures forall i :: 0 <= i < |s| ==> s[i] <= m
  {
    if |s| == 1 then s[0]
    else
      var m := Max(s[1..]);
      assert forall i :: 1 <= i < |s| ==> s[i] == s[1..][i - 1];
      if s[0] >= m then s[0] else m
  }

  /** Consecutive entries differ, so every finite difference of `x` can be
      divided by. */
  ghost predicate DistinctSteps(x: seq<real>)
  {
    forall i, j {:trigger x[i], x[j]} :: 0 <= i && j == i + 1 && j < |x| ==> x[j] != x[i]
  }

  /** `r` times `m` gives back `x`, element by element. */
  ghost predicate IsScaled(r: seq<real>, x: seq<real>, m: real)
  {
    |r| == |x| && forall i :: 0 <= i < |x| ==> r[i] * m == x[i]
  }

  /** `scale`: every element divided by the maximum. An empty array has no
      maximum (numpy raises) and a zero maximum gives NaN/infinity; both are
      `None`. */
  function Scale(x: seq<real>): (r: Option<seq<real>>)
    ensures r.None? <==> x == [] || Max(x) == 0.0
    ensures r.Some? ==> IsScaled(r.value, x, Max(x))
  {
    if x == [] then None
    else
      var m := Max(x);
      if m == 0.0 then None
      else Some(DivideAll(x, m))
  }

  /** `x / m` element-wise. */
  function DivideAll(x: seq<real>, m: real): (r: seq<real>)
    requires m != 0.0
    ensures IsScaled(r, x, m)
  {
    var r := seq(|x|, i requires 0 <= i < |x| => x[i] / m);
    forall i | 0 <= i < |x| ensures r[i] * m == x[i] {
      QuotientTimes(x[i], m);
    }
    r
  }


  /** A scaled entry whose original is at most the positive scale is at most 1. */
  lemma ScaledAtMostOne(r: seq<real>, x: seq<real>, m: real, k: nat)
    requires IsScaled(r, x, m) && k < |x| && m > 0.0 && x[k] <= m
    ensures r[k] <= 1.0
  {
    var f, v := r[k], x[k];
    assert f * m == v;
  }

  /** A scaled entry whose original is the scale itself is 1. */
  lemma ScaledOne(r: seq<real>, x: seq<real>, m: real, k: nat)
    requires IsScaled(r, x, m) && k < |x| && m != 0.0 && x[k] == m
    ensures r[k] == 1.0
  {
    var f := r[k];
    assert f * m == m;
    assert (f - 1.0) * m == 0.0;
  }

  /** With a positive maximum every scaled value is at most 1, and a maximal
      element scales to exactly 1. */
  lemma ScaleBounds(x: seq<real>)
    requires x != [] && Max(x) > 0.0
    ensures Scale(x).Some?
    ensures forall i :: 0 <= i < |x| ==> Scale(x).value[i] <= 1.0
    ensures 1.0 in Scale(x).value
  {
    var m := Max(x);
    var r := Scale(x).value;
    forall i | 0 <= i < |x| ensures r[i] <= 1.0 {
      ScaledAtMostOne(r, x, m, i);
    }
    var k :| 0 <= k < |x| && x[k] == m;
    ScaledOne(r, x, m, k);
  }

  lemma ScaledByOne(s: seq<real>, r: seq<real>, k: nat)
    requires IsScaled(s, r, 1.0) && k < |r|
    ensures s[k] == r[k]
  {
    assert s[k] * 1.0 == r[k];
  }

  /** Scaling an already scaled array (positive maximum) changes nothing. */
  lemma ScaleIdempotent(x: seq<real>)
    requires x != [] && Max(x) > 0.0
    ensures Scale(x).Some?
    ensures Scale(Scale(x).value) == Scale(x)
  {
    ScaleBounds(x);
    var r := Scale(x).value;
    var m := Max(r);
    assert m == 1.0 by {
      assert 1.0 <= m;
      var j :| 0 <= j < |r| && r[j] == m;
    }
    var s := Scale(r).value;
    forall i | 0 <= i < |r| ensures s[i] == r[i] {
      ScaledByOne(s, r, i);
    }
    assert s == r;
  }

  /** `(x[i + 1] + x[i]) / 2` for each consecutive pair. */
  function Midpoints(x: seq<real>): (m: seq<real>)
    ensures |m| == if |x| == 0 then 0 else |x| - 1
  {
    if |x| == 0 then []
    else seq(|x| - 1, i requires 0 <= i < |x| - 1 => (x[i + 1] + x[i]) / 2.0)
  }

  /** `np.diff(y) / np.diff(x)`, for consecutive x values that differ. */
  function Slopes(x: seq<real>, y: seq<real>): (d: seq<real>)
    requires |x| == |y| && DistinctSteps(x)
    ensures |d| == if |x| == 0 then 0 else |x| - 1
    ensures IsSlopes(d, x, y)
  {
    if |x| == 0 then []
    else
      var d := seq(|x| - 1, i requires 0 <= i < |x| - 1 => (y[i + 1] - y[i]) / (x[i + 1] - x[i]));
      forall i | 0 <= i < |d| ensures d[i] * (x[i + 1] - x[i]) == y[i + 1] - y[i] {
        QuotientTimes(y[i + 1] - y[i], x[i + 1] - x[i]);
      }
      d
  }

  /** Each `d[i]` times the step in x gives the step in y. */
  ghost predicate IsSlopes(d: seq<real>, x: seq<real>, y: seq<real>)
  {
    forall i {:trigger d[i]} :: 0 <= i < |d| && i + 1 < |x| && i + 1 < |y| ==> d[i] * (x[i + 1] - x[i]) == y[i + 1] - y[i]
  }

  /** Over strictly increasing x, each midpoint lies strictly inside its
      interval, so the midpoints are strictly increasing too. */
  lemma MidpointsBetween(x: seq<real>)
    requires StrictlyIncreasing(x)
    ensures forall i {:trigger Midpoints(x)[i]} :: 0 <= i < |Midpoints(x)| ==> x[i] < Midpoints(x)[i] < x[i + 1]
    ensures StrictlyIncreasing(Midpoints(x))
  {
    var m := Midpoints(x);
    forall i | 0 <= i < |m| ensures x[i] < m[i] < x[i + 1] {
      assert x[i] < x[i + 1];
    }
    forall i, j | 0 <= i < j < |m| ensures m[i] < m[j] {
      assert m[i] < x[i + 1] <= x[j] < m[j];
    }
  }

  lemma SlopeNonNegative(d: seq<real>, x: seq<real>, y: seq<real>, k: nat)
    requires IsSlopes(d, x, y) && k < |d| && k + 1 < |x| && k + 1 < |y|
    requires x[k] < x[k + 1] && y[k] <= y[k + 1]
    ensures d[k] >= 0.0
  {
    var f, m := d[k], x[k + 1] - x[k];
    assert f * m == y[k + 1] - y[k];
  }

  /** A non-decreasing y over strictly increasing x has no negative slope. */
  lemma SlopesNonNegative(x: seq<real>, y: seq<real>)
    requires |x| == |y| && StrictlyIncreasing(x) && NonDecreasingReals(y)
    ensures DistinctSteps(x)
    ensures forall i :: 0 <= i < |Slopes(x, y)| ==> Slopes(x, y)[i] >= 0.0
  {
    var d := Slopes(x, y);
    forall i | 0 <= i < |d| ensures d[i] >= 0.0 {
      SlopeNonNegative(d, x, y, i);
    }
  }

  /** `num_derivative`: the slopes in one vectorised step, then the midpoints
      appended one per slope. */
  method NumDerivative(x: seq<real>, y: seq<real>) returns (xprime: seq<real>, yprime: seq<real>)
    requires |x| == |y| && DistinctSteps(x)
    ensures yprime == Slopes(x, y)
    ensures xprime == Midpoints(x)
    ensures |xprime| == |yprime|
  {
    yprime := Slopes(x, y);
    ghost var mid := Midpoints(x);
    xprime := [];
    var i := 0;
    while i < |yprime|
      invariant 0 <= i <= |yprime| == |mid|
      invariant xprime == mid[..i]
    {
      var xtemp := (x[i + 1] + x[i]) / 2.0;
      assert xtemp == mid[i];
      xprime := xprime + [xtemp];
      i := i + 1;
    }
    assert mid[..i] == mid;
  }

  /** `|a - value|` element-wise. */
  function Distances(a: seq<real>, value: real): (d: seq<real>)
    ensures |d| == |a|
  {
    seq(|a|, i requires 0 <= i < |a| => Abs(a[i] - value))
  }

  /** `find_nearest`: the element at the first index of least distance to
      `value`; an empty array has no `argmin` (numpy raises). */
  function FindNearest(a: seq<real>, value: real): (r: Option<real>)
    ensures r.Some? <==> |a| > 0
    ensures r.Some? ==> exists k :: IsFirstMin(Distances(a, value), k) && r.value == a[k]
    ensures r.Some? ==> forall j :: 0 <= j < |a| ==> Abs(r.value - value) <= Abs(a[j] - value)
  {
    if |a| == 0 then None
    else
      var d := Distances(a, value);
      var k := ArgMin(d);
      assert forall j :: 0 <= j < |a| ==> d[j] == Abs(a[j] - value);
      Some(a[k])
  }

  /** A value that occurs in the array is its own nearest element. */
  lemma FindNearestMember(a: seq<real>, value: real)
    requires value in a
    ensures FindNearest(a, value) == Some(value)
  {
    var j :| 0 <= j < |a| && a[j] == value;
    var r := FindNearest(a, value).value;
    assert Abs(r - value) <= Abs(a[j] - value) == 0.0;
  }
}

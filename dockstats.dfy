/** The curve assembly of `src/model/pydockstats.py`: quantile axis,
    column selection, the Predictiveness-Curve series with one enrichment
    factor per quantile and the prevalence, and the quantile at which the
    curve turns steep. The logistic fit that turns scores into activity
    probabilities is not modelled: the probabilities are an input. */
module DockStats {
  import opened Wrappers
  import opened Seqs
  import opened Ranking
  import opened Calcs
  import opened PUtils

  // ---------------------------------------------------------------- quantiles

  /** `p` is the share `count / n`, stated without division. */
  ghost predicate IsShare(p: real, count: int, n: int)
  {
    p * n as real == count as real
  }

  /** Entry `k` of `x` is `(k + 1) / |x|`, stated without division. */
  ghost predicate IsPercentiles(x: seq<real>)
  {
    forall k :: 0 <= k < |x| ==> x[k] * |x| as real == (k + 1) as real
  }

  /** `generate_percentiles`: `k / N` for `k = 1 .. N`, one per prediction. */
  function GeneratePercentiles(predictions: seq<real>): (x: seq<real>)
    ensures |x| == |predictions|
    ensures IsPercentiles(x)
  {
    var n := |predictions|;
    var x := seq(n, k requires 0 <= k < n => (k + 1) as real / n as real);
    forall k | 0 <= k < n ensures x[k] * n as real == (k + 1) as real {
      QuotientTimes((k + 1) as real, n as real);
    }
    x
  }

  lemma PercentilePair(x: seq<real>, k: nat)
    requires IsPercentiles(x) && k < |x| - 1
    ensures x[k] * |x| as real == (k + 1) as real && x[k + 1] * |x| as real == (k + 2) as real
  {
    PercentileAt(x, k);
    PercentileAt(x, k + 1);
  }

  lemma PercentileAt(x: seq<real>, k: nat)
    requires IsPercentiles(x) && k < |x|
    ensures x[k] * |x| as real == (k + 1) as real
  {
  }

  /** Two reals with the same positive multiple are equal. */
  lemma SameMultiple(a: real, b: real, c: real)
    requires c > 0.0 && a * c == b * c
    ensures a == b
  {
    ScaleLess(a, b, c);
    ScaleLess(b, a, c);
  }

  /** Multiples of a positive `c` are ordered as the reals they multiply. */
  lemma LessByMultiple(a: real, b: real, c: real, p: real, q: real)
    requires c > 0.0 && a * c == p && b * c == q && p < q
    ensures a < b
  {
    ScaleLess(a, b, c);
  }

  /** A real whose positive multiple `c` lies in [0, c] lies in [0, 1]. */
  lemma FractionBounds(a: real, c: real, p: real)
    requires c > 0.0 && a * c == p && 0.0 <= p <= c
    ensures 0.0 <= a <= 1.0
  {
    ScaleLess(a, 0.0, c);
    ScaleLess(1.0, a, c);
  }

  /** The quantiles rise strictly from `1 / N` to exactly 1. */
  lemma PercentilesShape(x: seq<real>)
    requires |x| > 0 && IsPercentiles(x)
    ensures StrictlyIncreasing(x)
    ensures x[0] * |x| as real == 1.0
    ensures x[|x| - 1] == 1.0
    ensures forall k :: 0 <= k < |x| ==> 0.0 < x[k] <= 1.0
  {
    var n := |x| as real;
    forall i, j | 0 <= i < j < |x| ensures x[i] < x[j] {
      PercentileAt(x, i);
      PercentileAt(x, j);
      LessByMultiple(x[i], x[j], n, (i + 1) as real, (j + 1) as real);
    }
    PercentileAt(x, 0);
    PercentileAt(x, |x| - 1);
    SameMultiple(x[|x| - 1], 1.0, n);
    forall k | 0 <= k < |x| ensures 0.0 < x[k] <= 1.0 {
      PercentileAt(x, k);
      LessByMultiple(0.0, x[k], n, 0.0, (k + 1) as real);
      FractionBounds(x[k], n, (k + 1) as real);
    }
  }

  /** The quantiles never repeat, so their finite differences are defined. */
  lemma PercentilesDistinct(predictions: seq<real>)
    ensures var x := GeneratePercentiles(predictions);
            DistinctSteps(x)
  {
    if |predictions| > 0 {
      PercentilesShape(GeneratePercentiles(predictions));
    }
  }

  // ---------------------------------------------------------------- tables

  /** A table cell: a number, or missing (`None` / NaN). */
  type Cell = Option<real>

  /** A pandas DataFrame: column names and rows of cells. */
  datatype Frame = Frame(names: seq<string>, rows: seq<seq<Cell>>)

  predicate WellFormed(f: Frame)
  {
    forall r :: 0 <= r < |f.rows| ==> |f.rows[r]| == |f.names|
  }

  /** `df[cols[c]].values`. */
  function Column(f: Frame, c: nat): (col: seq<Cell>)
    requires WellFormed(f) && c < |f.names|
    ensures |col| == |f.rows|
  {
    seq(|f.rows|, r requires 0 <= r < |f.rows| => f.rows[r][c])
  }

  /** Column `c` holds at least one value, so `dropna(axis=1, how='all')` keeps it. */
  predicate HasData(f: Frame, c: nat)
    requires WellFormed(f) && c < |f.names|
  {
    exists r :: 0 <= r < |f.rows| && f.rows[r][c].Some?
  }

  /** The first column at or after `from` that survives `dropna`. */
  function NextKept(f: Frame, from: nat): (k: Option<nat>)
    requires WellFormed(f)
    ensures k.Some? ==> from <= k.value < |f.names| && HasData(f, k.value)
    ensures forall c :: from <= c < |f.names| && (k.None? || c < k.value) ==> !HasData(f, c)
    decreases |f.names| - from
  {
    if from >= |f.names| then None
    else if HasData(f, from) then Some(from)
    else NextKept(f, from + 1)
  }

  /** `i` and `j` are the first two columns that survive `dropna`. */
  ghost predicate FirstTwoKept(f: Frame, i: nat, j: nat)
    requires WellFormed(f)
  {
    && i < j < |f.names|
    && HasData(f, i) && HasData(f, j)
    && forall c :: 0 <= c < j && c != i ==> !HasData(f, c)
  }

  /** The scores and activity columns `preprocess_data` hands on. */
  datatype Columns = Columns(scores: seq<Cell>, activity: seq<Cell>)

  /** Fewer than two columns survive `dropna`: `cols[0]` or `cols[1]` raises IndexError. */
  datatype FrameError = TooFewColumns

  /** `preprocess_data`: drop the columns with no value at all, then take the
      first remaining column as scores and the second as activity. */
  function PreprocessData(f: Frame): (r: Result<Columns, FrameError>)
    requires WellFormed(f)
    ensures r.Success? <==> exists i, j :: 0 <= i < j < |f.names| && HasData(f, i) && HasData(f, j)
    ensures r.Success? ==>
              exists i, j :: FirstTwoKept(f, i, j) && r.value == Columns(Column(f, i), Column(f, j))
    ensures r.Success? ==> |r.value.scores| == |r.value.activity| == |f.rows|
  {
    match NextKept(f, 0)
    case None => Failure(TooFewColumns)
    case Some(i) =>
      match NextKept(f, i + 1)
      case None => Failure(TooFewColumns)
      case Some(j) =>
        assert FirstTwoKept(f, i, j);
        Success(Columns(Column(f, i), Column(f, j)))
  }

  // ---------------------------------------------------------------- curves

  /** The Predictiveness-Curve part of `calculate_curves`' result. */
  datatype PcData = PcData(x: seq<real>, y: seq<real>, prevalence: real, efs: seq<Option<real>>)

  /** The Predictiveness-Curve series of `calculate_curves`. `desc` is the
      ranking `np.argsort(-predictions)` puts the compounds in and `efRanked`
      the one `calculate_enrichment_factor` sorts by; an empty input divides
      by zero in the prevalence. */
  function CalculateCurves(predictions: seq<real>, activity: seq<int>, desc: seq<Sample>, efRanked: seq<Sample>)
    : (r: Result<PcData, CalcError>)
    requires |predictions| == |activity|
    requires IsRanking(desc, predictions, activity, true)
    requires IsRanking(efRanked, predictions, activity, true)
    ensures r.Failure? <==> |activity| == 0
    ensures r.Success? ==>
              && |r.value.x| == |r.value.y| == |r.value.efs| == |activity|
              && IsPercentiles(r.value.x)
              && NonDecreasingReals(r.value.y)
              && multiset(r.value.y) == multiset(predictions)
              && IsShare(r.value.prevalence, Sum(activity), |activity|)
              && r.value.efs == PercentileEfs(predictions, activity, r.value.x, efRanked)
  {
    if |activity| == 0 then Failure(ZeroDivision)
    else
      var n := |activity|;
      var y := Reverse(Preds(desc));
      AscendingSeries(desc, predictions, activity);
      var x := GeneratePercentiles(y);
      var prevalence := Sum(activity) as real / n as real;
      QuotientTimes(Sum(activity) as real, n as real);
      Success(PcData(x, y, prevalence, PercentileEfs(predictions, activity, x, efRanked)))
  }

  /** One `calculate_enrichment_factor` call per quantile `x[k]`, for the top
      fraction `1 - x[k]`; an undefined EF is `None`. */
  function PercentileEfs(predictions: seq<real>, activity: seq<int>, x: seq<real>, efRanked: seq<Sample>)
    : (efs: seq<Option<real>>)
    requires |predictions| == |activity|
    requires IsRanking(efRanked, predictions, activity, true)
    ensures |efs| == |x|
  {
    seq(|x|, k requires 0 <= k < |x| => CalculateEnrichmentFactor(activity, predictions, 1.0 - x[k], efRanked).ToOption())
  }

  lemma PercentileEfAt(predictions: seq<real>, activity: seq<int>, x: seq<real>, efRanked: seq<Sample>, k: nat)
    requires |predictions| == |activity| && k < |x|
    requires IsRanking(efRanked, predictions, activity, true)
    ensures PercentileEfs(predictions, activity, x, efRanked)[k]
            == CalculateEnrichmentFactor(activity, predictions, 1.0 - x[k], efRanked).ToOption()
  {
  }

  /** Reversing a descending ranking's predictions gives every prediction,
      in non-decreasing order. */
  lemma AscendingSeries(desc: seq<Sample>, predictions: seq<real>, activity: seq<int>)
    requires IsRanking(desc, predictions, activity, true)
    ensures |Reverse(Preds(desc))| == |predictions|
    ensures NonDecreasingReals(Reverse(Preds(desc)))
    ensures multiset(Reverse(Preds(desc))) == multiset(predictions)
  {
    RankingContents(desc, predictions, activity, true);
    ReversePermutation(Preds(desc));
    var y := Reverse(Preds(desc));
    var p := Preds(desc);
    forall i, j | 0 <= i < j < |y| ensures y[i] <= y[j] {
      assert y[i] == p[|p| - 1 - i] == PredOf(desc[|p| - 1 - i]);
      assert y[j] == p[|p| - 1 - j] == PredOf(desc[|p| - 1 - j]);
    }
  }

  /** The top fraction `1 - (k + 1) / N` of N compounds is exactly the
      `N - k - 1` best ones. */
  lemma CutoffAtPercentile(n: nat, k: nat, t: real)
    requires k < n && t * n as real == (k + 1) as real
    ensures Cutoff(n, 1.0 - t) == n - k - 1
  {
    assert n as real * (1.0 - t) == (n - k - 1) as real;
  }

  /** The EF at a top fraction whose cutoff is `c`: undefined for an empty
      top or no actives, otherwise the EF ratio of the `c` best compounds. */
  lemma EnrichmentFactorAtCutoff(yTrue: seq<int>, yPred: seq<real>, t: real, ranked: seq<Sample>, c: int)
    requires |yTrue| == |yPred| && IsRanking(ranked, yPred, yTrue, true)
    requires Cutoff(|yTrue|, t) == c
    ensures CalculateEnrichmentFactor(yTrue, yPred, t, ranked).ToOption() == TopEf(ranked, Sum(yTrue), c, |yTrue|)
  {
  }

  /** The EF of the `c` best of `n` ranked compounds with `total` actives in
      all: undefined for an empty top or no actives. */
  function TopEf(ranked: seq<Sample>, total: int, c: int, n: int): (r: Option<real>)
    ensures r.Some? <==> c != 0 && total != 0 && n != 0
    ensures r.Some? ==> r.value == (TopActives(ranked, c) * n) as real / (total * c) as real
  {
    if c == 0 || total == 0 || n == 0 then None
    else Some(EfRatio(TopActives(ranked, c), total, c, n))
  }

  /** Entry `k` of the EF series is the EF of the `c` best-ranked compounds
      when `c` is the cutoff of its top fraction `1 - x[k]`: the share of all
      actives among them over their share of the population, undefined for
      an empty top or no actives. With `x[k] = (k + 1) / N`, as
      `IsPercentiles` gives every entry, `CutoffAtPercentile` makes `c` the
      `N - k - 1` best, so the last entry has no value. */
  lemma CurveEfAtCutoff(predictions: seq<real>, activity: seq<int>, x: seq<real>, efRanked: seq<Sample>, k: nat, c: int)
    requires |predictions| == |activity| && k < |x| && Cutoff(|activity|, 1.0 - x[k]) == c
    requires IsRanking(efRanked, predictions, activity, true)
    ensures PercentileEfs(predictions, activity, x, efRanked)[k] == TopEf(efRanked, Sum(activity), c, |activity|)
  {
    PercentileEfAt(predictions, activity, x, efRanked, k);
    EnrichmentFactorAtCutoff(activity, predictions, 1.0 - x[k], efRanked, c);
  }

  /** With 0/1 labels the prevalence is the share of actives, between 0 and 1. */
  lemma PrevalenceBounds(p: real, activity: seq<int>)
    requires |activity| > 0 && IsBinary(activity) && IsShare(p, Sum(activity), |activity|)
    ensures IsShare(p, CountOnes(activity), |activity|)
    ensures 0.0 <= p <= 1.0
  {
    BinarySumIsCount(activity);
    ShareBounds(p, Sum(activity), |activity|);
  }

  /** A share of at most the whole lies in [0, 1]. */
  lemma ShareBounds(p: real, s: int, n: int)
    requires n > 0 && 0 <= s <= n && IsShare(p, s, n)
    ensures 0.0 <= p <= 1.0
  {
    FractionBounds(p, n as real, s as real);
  }

  // ---------------------------------------------------------------- selected quantile

  /** The first index at or after `from` whose entry exceeds `t`. */
  function FirstAbove(s: seq<real>, t: real, from: nat): (k: Option<nat>)
    ensures k.Some? ==> from <= k.value < |s| && s[k.value] > t
    ensures forall j :: from <= j < |s| && (k.None? || j < k.value) ==> s[j] <= t
    decreases |s| - from
  {
    if from >= |s| then None
    else if s[from] > t then Some(from)
    else FirstAbove(s, t, from + 1)
  }

  /** `np.argmax(s > t)`: the first index whose entry exceeds `t`, or 0
      when no entry does (the argmax of an all-false mask). */
  ghost predicate IsArgmaxAbove(s: seq<real>, t: real, k: nat)
  {
    if exists j :: 0 <= j < |s| && s[j] > t
    then k < |s| && s[k] > t && forall j :: 0 <= j < k ==> s[j] <= t
    else k == 0
  }

  /** An argmax of a mask is unique. */
  lemma ArgmaxAboveUnique(s: seq<real>, t: real, k: nat, l: nat)
    requires IsArgmaxAbove(s, t, k) && IsArgmaxAbove(s, t, l)
    ensures k == l
  {
  }

  /** The steep index is the one index that `np.argmax` of the mask picks. */
  lemma SteepIndexIs(predictions: seq<real>, k: nat)
    requires |predictions| >= 2
    requires ScaledSlopes(predictions).None? ==> k == 0
    requires ScaledSlopes(predictions).Some? ==> IsArgmaxAbove(ScaledSlopes(predictions).value, 0.34, k)
    ensures k == SteepIndex(predictions)
  {
    if ScaledSlopes(predictions).Some? {
      ArgmaxAboveUnique(ScaledSlopes(predictions).value, 0.34, k, SteepIndex(predictions));
    }
  }

  /** `scale(y_hat_prime)`: the slopes of the predictions over the quantile
      axis, scaled by the largest one. */
  function ScaledSlopes(predictions: seq<real>): (s: Option<seq<real>>)
    requires |predictions| >= 2
    ensures s.Some? ==> |s.value| == |predictions| - 1
  {
    PercentilesDistinct(predictions);
    Scale(Slopes(GeneratePercentiles(predictions), predictions))
  }

  /** `np.argmax(y_hat_prime > 0.34)` over the scaled slopes: the first
      slope above 0.34, or 0 when there is none. A zero maximum slope makes
      `scale` return NaN and infinities of which none exceeds 0.34. */
  function SteepIndex(predictions: seq<real>): (k: nat)
    requires |predictions| >= 2
    ensures k < |predictions| - 1
    ensures ScaledSlopes(predictions).None? ==> k == 0
    ensures ScaledSlopes(predictions).Some? ==> IsArgmaxAbove(ScaledSlopes(predictions).value, 0.34, k)
  {
    match ScaledSlopes(predictions)
    case None => 0
    case Some(scaled) =>
      match FirstAbove(scaled, 0.34, 0)
      case None => 0
      case Some(k) => k
  }

  /** The midpoints of the quantiles: `(2k + 3) / 2N` for `k < N - 1`. */
  lemma MidpointAt(x: seq<real>, k: nat)
    requires k < |x| - 1
    requires x[k] * |x| as real == (k + 1) as real && x[k + 1] * |x| as real == (k + 2) as real
    ensures IsShare(Midpoints(x)[k], 2 * k + 3, 2 * |x|)
  {
    MidpointTimes(x[k], x[k + 1], |x| as real);
  }

  /** Twice `n` times the midpoint of `a` and `b` is `n` times their sum. */
  lemma MidpointTimes(a: real, b: real, n: real)
    ensures (b + a) / 2.0 * (2.0 * n) == b * n + a * n
  {
  }

  /** The maximum of a strictly increasing sequence is its last entry. */
  lemma {:induction false} MaxOfIncreasing(s: seq<real>)
    requires |s| > 0 && StrictlyIncreasing(s)
    ensures Max(s) == s[|s| - 1]
  {
    var m := Max(s);
    var j :| 0 <= j < |s| && s[j] == m;
    assert s[|s| - 1] <= m;
    if j < |s| - 1 {
      assert s[j] < s[|s| - 1];
    }
  }

  /** `calculate_selected_x`: the scaled midpoint quantile at the first
      scaled slope above 0.34 (or the first midpoint). Fewer than two
      predictions leave no midpoint, and `scale` of the empty list
      `x_prime` raises (a plain list has no `max` method). */
  function CalculateSelectedX(predictions: seq<real>): (r: Option<real>)
    ensures r.Some? <==> |predictions| >= 2
    ensures r.Some? ==> 0.0 < r.value <= 1.0
  {
    var x := GeneratePercentiles(predictions);
    var xprime := Midpoints(x);
    if |xprime| == 0 then None
    else
      match Scale(xprime)
      case None => None
      case Some(scaled) =>
        var k := SteepIndex(predictions);
        ScaledMidpointBounds(x, k);
        Some(scaled[k])
  }

  /** Scaled by the largest midpoint, every midpoint of the quantiles lies
      in (0, 1]. */
  lemma ScaledMidpointBounds(x: seq<real>, k: nat)
    requires IsPercentiles(x) && |x| >= 2 && k < |x| - 1
    ensures Scale(Midpoints(x)).Some?
    ensures 0.0 < Scale(Midpoints(x)).value[k] <= 1.0
  {
    var xprime := Midpoints(x);
    PercentilesShape(x);
    MidpointsBetween(x);
    MaxOfIncreasing(xprime);
    ScaleBounds(xprime);
    MidpointScaledPositive(xprime, Scale(xprime).value, Max(xprime), k);
  }

  /** A positive entry scaled by a positive maximum stays positive. */
  lemma MidpointScaledPositive(xprime: seq<real>, scaled: seq<real>, m: real, k: nat)
    requires m > 0.0 && IsScaled(scaled, xprime, m)
    requires k < |xprime| && xprime[k] > 0.0
    ensures scaled[k] > 0.0
  {
    ScaledAt(scaled, xprime, m, k);
    LessByMultiple(0.0, scaled[k], m, 0.0, xprime[k]);
  }

  lemma ScaledAt(r: seq<real>, x: seq<real>, m: real, k: nat)
    requires IsScaled(r, x, m) && k < |x|
    ensures r[k] * m == x[k]
  {
  }

  /** From `r * m = a`, `a * 2n = p` and `m * 2n = q`: `r * q = p`. */
  lemma RatioOfMultiples(r: real, m: real, a: real, n2: real, p: real, q: real)
    requires r * m == a && a * n2 == p && m * n2 == q
    ensures r * q == p
  {
    assert r * q == r * (m * n2) == (r * m) * n2;
  }

  /** The selected quantile is the midpoint at the first scaled slope above
      0.34 (the first midpoint when no slope exceeds it), scaled by the
      largest midpoint; `ScaledMidpointAt` gives each such entry in closed
      form. */
  lemma SelectedXIsScaledMidpoint(predictions: seq<real>, k: nat)
    requires |predictions| >= 2
    requires ScaledSlopes(predictions).None? ==> k == 0
    requires ScaledSlopes(predictions).Some? ==> IsArgmaxAbove(ScaledSlopes(predictions).value, 0.34, k)
    ensures Scale(Midpoints(GeneratePercentiles(predictions))).Some?
    ensures k < |Scale(Midpoints(GeneratePercentiles(predictions))).value|
    ensures CalculateSelectedX(predictions) == Some(Scale(Midpoints(GeneratePercentiles(predictions))).value[k])
  {
    SteepIndexIs(predictions, k);
    SelectedXAtSteepIndex(predictions);
  }

  /** The selected quantile in closed form: with `k` the first scaled slope
      above 0.34, it is `(2k + 3) / (2N - 1)`. */
  lemma SelectedXClosedForm(predictions: seq<real>, k: nat, v: real)
    requires |predictions| >= 2
    requires ScaledSlopes(predictions).None? ==> k == 0
    requires ScaledSlopes(predictions).Some? ==> IsArgmaxAbove(ScaledSlopes(predictions).value, 0.34, k)
    requires CalculateSelectedX(predictions) == Some(v)
    ensures IsShare(v, 2 * k + 3, 2 * |predictions| - 1)
  {
    SelectedXIsScaledMidpoint(predictions, k);
    ScaledMidpointAt(GeneratePercentiles(predictions), k);
  }

  lemma SelectedXAtSteepIndex(predictions: seq<real>)
    requires |predictions| >= 2
    ensures Scale(Midpoints(GeneratePercentiles(predictions))).Some?
    ensures SteepIndex(predictions) < |Scale(Midpoints(GeneratePercentiles(predictions))).value|
    ensures CalculateSelectedX(predictions)
            == Some(Scale(Midpoints(GeneratePercentiles(predictions))).value[SteepIndex(predictions)])
  {
    LastMidpointIsMax(GeneratePercentiles(predictions));
  }

  /** Scaled by the last midpoint, the `k`-th midpoint of the quantiles is
      `(2k + 3) / (2N - 1)`. */
  lemma ScaledMidpointAt(x: seq<real>, k: nat)
    requires IsPercentiles(x) && k < |x| - 1
    ensures Scale(Midpoints(x)).Some?
    ensures IsShare(Scale(Midpoints(x)).value[k], 2 * k + 3, 2 * |x| - 1)
  {
    LastMidpointIsMax(x);
    PercentilePair(x, k);
    MidpointAt(x, k);
    LastMidpointAt(x);
    ScaledMidpointRatio(Scale(Midpoints(x)).value, Midpoints(x), Midpoints(x)[|x| - 2], k, 2 * k + 3, 2 * |x|, 2 * |x| - 1);
  }

  /** The last midpoint of the quantiles is `(2N - 1) / 2N`. */
  lemma LastMidpointAt(x: seq<real>)
    requires IsPercentiles(x) && |x| >= 2
    ensures IsShare(Midpoints(x)[|x| - 2], 2 * |x| - 1, 2 * |x|)
  {
    PercentilePair(x, |x| - 2);
    MidpointAt(x, |x| - 2);
  }

  /** The midpoints of the quantiles are positive and rise to the last one. */
  lemma LastMidpointIsMax(x: seq<real>)
    requires IsPercentiles(x) && |x| >= 2
    ensures Max(Midpoints(x)) == Midpoints(x)[|x| - 2] > 0.0
  {
    PercentilesShape(x);
    MidpointsBetween(x);
    MaxOfIncreasing(Midpoints(x));
  }

  /** The `k`-th midpoint `c / d` scaled by the largest one `e / d` is `c / e`. */
  lemma ScaledMidpointRatio(scaled: seq<real>, xprime: seq<real>, m: real, k: nat, c: int, d: int, e: int)
    requires IsScaled(scaled, xprime, m) && k < |xprime|
    requires IsShare(xprime[k], c, d) && IsShare(m, e, d)
    ensures IsShare(scaled[k], c, e)
  {
    ScaledAt(scaled, xprime, m, k);
    RatioOfMultiples(scaled[k], m, xprime[k], d as real, c as real, e as real);
  }
}

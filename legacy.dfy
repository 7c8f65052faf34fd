/** The older curve code at the repository root (`pydockstats.py`): the same
    quantile axis and column selection, except that the rows are shuffled
    first, and an EF series computed with `calculate_hits` over the
    ascending ranking, with the quantile itself passed as the start index.
    Its `generate_percentiles` and `calculate_selected_x` are the same text
    as in `src/model/pydockstats.py` and are `DockStats.GeneratePercentiles`
    and `DockStats.CalculateSelectedX` here. */
module LegacyDockStats {
  import opened Wrappers
  import opened Seqs
  import opened Ranking
  import opened Calcs
  import opened PUtils
  import opened DockStats

  // ---------------------------------------------------------------- shuffled preprocessing

  /** `g` is `f` after `df.sample(frac=1).reset_index(drop=True)`: the same
      columns, the rows in some order. */
  ghost predicate IsShuffle(f: Frame, g: Frame)
  {
    g.names == f.names && multiset(g.rows) == multiset(f.rows)
  }

  /** The legacy `preprocess_data`: shuffle the rows (the random order is the
      parameter `shuffled`), then select columns as the current version does. */
  function LegacyPreprocessData(f: Frame, shuffled: Frame): (r: Result<Columns, FrameError>)
    requires WellFormed(f) && IsShuffle(f, shuffled)
    ensures r.Success? <==> PreprocessData(f).Success?
    ensures r.Success? ==>
              && |r.value.scores| == |r.value.activity| == |f.rows|
              && multiset(RowPairs(r.value)) == multiset(RowPairs(PreprocessData(f).value))
  {
    ShufflePreservesColumns(f, shuffled);
    NextKeptAgrees(f, shuffled, 0);
    match NextKept(f, 0)
    case None => PreprocessData(shuffled)
    case Some(i) =>
      NextKeptAgrees(f, shuffled, i + 1);
      match NextKept(f, i + 1)
      case None => PreprocessData(shuffled)
      case Some(j) =>
        ColumnPairs(f, i, j);
        ColumnPairs(shuffled, i, j);
        MapPermutation((row: seq<Cell>) => PickPair(i, j, row), shuffled.rows, f.rows);
        PreprocessData(shuffled)
  }

  /** The (score, activity) pair of each row. */
  function RowPairs(c: Columns): seq<(Cell, Cell)>
    requires |c.scores| == |c.activity|
  {
    seq(|c.scores|, r requires 0 <= r < |c.scores| => (c.scores[r], c.activity[r]))
  }

  /** Cells `i` and `j` of a row. */
  function PickPair(i: nat, j: nat, row: seq<Cell>): (Cell, Cell)
  {
    (if i < |row| then row[i] else None, if j < |row| then row[j] else None)
  }

  lemma ColumnPairs(f: Frame, i: nat, j: nat)
    requires WellFormed(f) && i < |f.names| && j < |f.names|
    ensures RowPairs(Columns(Column(f, i), Column(f, j))) == Map((row: seq<Cell>) => PickPair(i, j, row), f.rows)
  {
  }

  /** Shuffling rows keeps the shape and which columns hold data. */
  lemma ShufflePreservesColumns(f: Frame, g: Frame)
    requires WellFormed(f) && IsShuffle(f, g)
    ensures WellFormed(g) && |g.rows| == |f.rows|
    ensures forall c :: 0 <= c < |f.names| ==> (HasData(g, c) <==> HasData(f, c))
  {
    assert |g.rows| == |multiset(g.rows)| == |multiset(f.rows)| == |f.rows|;
    forall r | 0 <= r < |g.rows| ensures |g.rows[r]| == |g.names| {
      assert g.rows[r] in multiset(f.rows);
    }
    forall c | 0 <= c < |f.names| ensures HasData(g, c) <==> HasData(f, c) {
      if HasData(g, c) {
        var r :| 0 <= r < |g.rows| && g.rows[r][c].Some?;
        assert g.rows[r] in multiset(f.rows);
        var s :| 0 <= s < |f.rows| && f.rows[s] == g.rows[r];
      }
      if HasData(f, c) {
        var r :| 0 <= r < |f.rows| && f.rows[r][c].Some?;
        assert f.rows[r] in multiset(g.rows);
        var s :| 0 <= s < |g.rows| && g.rows[s] == f.rows[r];
      }
    }
  }

  /** Frames whose columns hold data in the same places keep the same columns. */
  lemma {:induction false} NextKeptAgrees(f: Frame, g: Frame, from: nat)
    requires WellFormed(f) && WellFormed(g) && g.names == f.names
    requires forall c :: 0 <= c < |f.names| ==> (HasData(g, c) <==> HasData(f, c))
    ensures NextKept(g, from) == NextKept(f, from)
    decreases |f.names| - from
  {
    if from < |f.names| && !HasData(f, from) {
      NextKeptAgrees(f, g, from + 1);
    }
  }

  // ---------------------------------------------------------------- legacy curves

  /** One `calculate_EF(*calculate_hits(sorted, x, activity), 1 - x)` per
      quantile `x`, over the labels in ascending order. */
  function LegacyEfs(sortedLabels: seq<int>, activity: seq<int>, x: seq<real>): (efs: seq<Option<real>>)
    ensures |efs| == |x|
  {
    seq(|x|, k requires 0 <= k < |x| =>
                var h := CalculateHits(sortedLabels, x[k], activity);
                CalculateEF(h.x, h.t, 1.0 - x[k]))
  }

  /** The legacy `calculate_curves` (Predictiveness-Curve part): `asc` is
      the ranking `np.argsort(predictions)` puts the compounds in. An empty
      input divides by zero in the prevalence. */
  function LegacyCalculateCurves(predictions: seq<real>, activity: seq<int>, asc: seq<Sample>)
    : (r: Result<PcData, CalcError>)
    requires IsRanking(asc, predictions, activity, false)
    ensures r.Failure? <==> |activity| == 0
    ensures r.Success? ==>
              && |r.value.x| == |r.value.y| == |r.value.efs| == |activity|
              && IsPercentiles(r.value.x)
              && NonDecreasingReals(r.value.y)
              && multiset(r.value.y) == multiset(predictions)
              && IsShare(r.value.prevalence, Sum(activity), |activity|)
              && r.value.efs == LegacyEfs(Labels(asc), activity, r.value.x)
  {
    if |activity| == 0 then Failure(ZeroDivision)
    else
      var n := |activity|;
      var y := Preds(asc);
      AscendingPredictions(asc, predictions, activity);
      var x := GeneratePercentiles(y);
      var prevalence := Sum(activity) as real / n as real;
      QuotientTimes(Sum(activity) as real, n as real);
      Success(PcData(x, y, prevalence, LegacyEfs(Labels(asc), activity, x)))
  }

  /** An ascending ranking lists every prediction in non-decreasing order. */
  lemma AscendingPredictions(asc: seq<Sample>, predictions: seq<real>, activity: seq<int>)
    requires IsRanking(asc, predictions, activity, false)
    ensures |Preds(asc)| == |predictions|
    ensures NonDecreasingReals(Preds(asc))
    ensures multiset(Preds(asc)) == multiset(predictions)
  {
    RankingContents(asc, predictions, activity, false);
    var p := Preds(asc);
    forall i, j | 0 <= i < j < |p| ensures p[i] <= p[j] {
      assert p[i] == PredOf(asc[i]) && p[j] == PredOf(asc[j]);
    }
  }

  /** `ef` is defined and equals `1 / (1 - q)`, stated without division. */
  ghost predicate IsReciprocalEf(ef: Option<real>, q: real)
  {
    ef.Some? && ef.value * (1.0 - q) == 1.0
  }

  /** Entry `k` of the legacy EF series is the EF at quantile `x[k]`. */
  lemma LegacyEfAt(sortedLabels: seq<int>, activity: seq<int>, x: seq<real>, k: nat)
    requires k < |x|
    ensures var h := CalculateHits(sortedLabels, x[k], activity);
            LegacyEfs(sortedLabels, activity, x)[k] == CalculateEF(h.x, h.t, 1.0 - x[k])
  {
  }

  /** Entry `k < N - 1` of the legacy EF series, at the quantile
      `x[k] = (k + 1) / N`: the start index truncates to 0, so every active
      counts as a hit whatever the ranking, and the EF is `1 / (1 - x[k])`. */
  lemma LegacyEfIgnoresRanking(sortedLabels: seq<int>, activity: seq<int>, x: seq<real>, k: nat)
    requires multiset(sortedLabels) == multiset(activity)
    requires |x| == |activity| && k < |x| - 1 && IsShare(x[k], k + 1, |x|)
    requires CountOnes(activity) != 0
    ensures IsReciprocalEf(LegacyEfs(sortedLabels, activity, x)[k], x[k])
  {
    QuantileBelowOne(x[k], k, |x|);
    EfOfAllHits(sortedLabels, activity, x[k]);
    LegacyEfAt(sortedLabels, activity, x, k);
  }

  /** At a start index below 1 every active is a hit, and the EF is the
      reciprocal of the fraction. */
  lemma EfOfAllHits(sortedLabels: seq<int>, activity: seq<int>, q: real)
    requires multiset(sortedLabels) == multiset(activity)
    requires 0.0 < q < 1.0 && CountOnes(activity) != 0
    ensures var h := CalculateHits(sortedLabels, q, activity);
            IsReciprocalEf(CalculateEF(h.x, h.t, 1.0 - q), q)
  {
    HitsWithinTotal(sortedLabels, q, activity);
    var h := CalculateHits(sortedLabels, q, activity);
    EfOfEqualHits(h.t, q);
  }

  /** With as many hits as actives the EF at top fraction `1 - q` is its reciprocal. */
  lemma EfOfEqualHits(t: nat, q: real)
    requires t != 0 && q != 1.0
    ensures IsReciprocalEf(CalculateEF(t, t, 1.0 - q), q)
  {
    AllHitsRatio(CalculateEF(t, t, 1.0 - q).value, t as real, q);
  }

  /** On the whole curve: entry `k < N - 1` of the legacy EF series is
      `1 / (1 - x[k])` whenever there is an active, for every ranking. */
  lemma LegacyCurveEfIsReciprocal(predictions: seq<real>, activity: seq<int>, asc: seq<Sample>, k: nat)
    requires IsRanking(asc, predictions, activity, false)
    requires k < |activity| - 1 && CountOnes(activity) != 0
    ensures var r := LegacyCalculateCurves(predictions, activity, asc);
            r.Success? ==>
            IsShare(r.value.x[k], k + 1, |activity|) && IsReciprocalEf(r.value.efs[k], r.value.x[k])
  {
    var r := LegacyCalculateCurves(predictions, activity, asc);
    if r.Success? {
      var x := r.value.x;
      QuantileOfCurve(x, k, |activity|);
      RankingContents(asc, predictions, activity, false);
      LegacyEfIgnoresRanking(Labels(asc), activity, x, k);
    }
  }

  lemma QuantileOfCurve(x: seq<real>, k: nat, n: nat)
    requires IsPercentiles(x) && |x| == n && k < n
    ensures IsShare(x[k], k + 1, n)
  {
    PercentileAt(x, k);
  }

  /** A quantile `(k + 1) / n` with `k < n - 1` lies strictly between 0 and 1. */
  lemma QuantileBelowOne(q: real, k: nat, n: nat)
    requires k < n - 1 && IsShare(q, k + 1, n)
    ensures 0.0 < q < 1.0
  {
    LessByMultiple(0.0, q, n as real, 0.0, (k + 1) as real);
    LessByMultiple(q, 1.0, n as real, (k + 1) as real, n as real);
  }

  /** `v * (t * (1 - q)) == t` with `t` non-zero gives `v * (1 - q) == 1`. */
  lemma AllHitsRatio(v: real, t: real, q: real)
    requires t != 0.0 && v * (t * (1.0 - q)) == t
    ensures v * (1.0 - q) == 1.0
  {
    assert (v * (1.0 - q)) * t == 1.0 * t;
  }

  /** The last entry of the legacy EF series, at the quantile 1, divides by
      a zero fraction; with no actives every entry divides by zero. */
  lemma LegacyEfUndefined(sortedLabels: seq<int>, activity: seq<int>, x: seq<real>, k: nat)
    requires |x| == |activity| && k < |x| && IsShare(x[k], k + 1, |x|)
    requires k == |x| - 1 || CountOnes(activity) == 0
    ensures LegacyEfs(sortedLabels, activity, x)[k] == None
  {
    LegacyEfAt(sortedLabels, activity, x, k);
    if k == |x| - 1 {
      WholeShare(x[k], |x|);
    }
  }

  /** The share `n / n` is 1. */
  lemma WholeShare(q: real, n: nat)
    requires n > 0 && IsShare(q, n, n)
    ensures q == 1.0
  {
    SameMultiple(q, 1.0, n as real);
  }

  // ---------------------------------------------------------------- the legacy EF against the current one

  /** Five compounds whose two actives are ranked last. At the third quantile
      `3/5` the current series looks at the top 2 compounds, finds no active
      and reports 0; the legacy series reports `1 / (1 - 3/5) = 2.5`, as it
      does for every input with an active at that quantile. */
  lemma LegacyEfMisreadsQuantile(asc: seq<Sample>, desc: seq<Sample>)
    requires IsRanking(asc, [5.0, 4.0, 3.0, 2.0, 1.0], [0, 0, 0, 1, 1], false)
    requires IsRanking(desc, [5.0, 4.0, 3.0, 2.0, 1.0], [0, 0, 0, 1, 1], true)
    ensures LegacyCalculateCurves([5.0, 4.0, 3.0, 2.0, 1.0], [0, 0, 0, 1, 1], asc).Success?
    ensures LegacyCalculateCurves([5.0, 4.0, 3.0, 2.0, 1.0], [0, 0, 0, 1, 1], asc).value.efs[2] == Some(2.5)
    ensures CalculateCurves([5.0, 4.0, 3.0, 2.0, 1.0], [0, 0, 0, 1, 1], desc, desc).Success?
    ensures CalculateCurves([5.0, 4.0, 3.0, 2.0, 1.0], [0, 0, 0, 1, 1], desc, desc).value.efs[2] == Some(0.0)
  {
    MisreadLegacy(asc);
    MisreadCurrent(desc);
  }

  lemma MisreadLegacy(asc: seq<Sample>)
    requires IsRanking(asc, [5.0, 4.0, 3.0, 2.0, 1.0], [0, 0, 0, 1, 1], false)
    ensures LegacyCalculateCurves([5.0, 4.0, 3.0, 2.0, 1.0], [0, 0, 0, 1, 1], asc).Success?
    ensures LegacyCalculateCurves([5.0, 4.0, 3.0, 2.0, 1.0], [0, 0, 0, 1, 1], asc).value.efs[2] == Some(2.5)
  {
    var l := [0, 0, 0, 1, 1];
    assert CountOnes(l) == 2;
    LegacyCurveEfIsReciprocal([5.0, 4.0, 3.0, 2.0, 1.0], l, asc, 2);
    var c := LegacyCalculateCurves([5.0, 4.0, 3.0, 2.0, 1.0], l, asc).value;
    LegacyEfValue(c.efs[2], c.x[2]);
  }

  lemma MisreadCurrent(desc: seq<Sample>)
    requires IsRanking(desc, [5.0, 4.0, 3.0, 2.0, 1.0], [0, 0, 0, 1, 1], true)
    ensures CalculateCurves([5.0, 4.0, 3.0, 2.0, 1.0], [0, 0, 0, 1, 1], desc, desc).Success?
    ensures CalculateCurves([5.0, 4.0, 3.0, 2.0, 1.0], [0, 0, 0, 1, 1], desc, desc).value.efs[2] == Some(0.0)
  {
    var r := CalculateCurves([5.0, 4.0, 3.0, 2.0, 1.0], [0, 0, 0, 1, 1], desc, desc);
    QuantileOfCurve(r.value.x, 2, 5);
    MisreadSeriesEf(desc, r.value.x);
  }

  /** At a quantile `3/5` the current EF series of the five compounds is 0. */
  lemma MisreadSeriesEf(desc: seq<Sample>, x: seq<real>)
    requires IsRanking(desc, [5.0, 4.0, 3.0, 2.0, 1.0], [0, 0, 0, 1, 1], true)
    requires |x| == 5 && IsShare(x[2], 3, 5)
    ensures PercentileEfs([5.0, 4.0, 3.0, 2.0, 1.0], [0, 0, 0, 1, 1], x, desc)[2] == Some(0.0)
  {
    var l := [0, 0, 0, 1, 1];
    assert Sum(l) == 2;
    CutoffAtPercentile(5, 2, x[2]);
    CurveEfAtCutoff([5.0, 4.0, 3.0, 2.0, 1.0], l, x, desc, 2, 2);
    MisreadTopActives(desc);
  }

  /** The top two compounds by prediction are both inactive. */
  lemma MisreadTopActives(desc: seq<Sample>)
    requires IsRanking(desc, [5.0, 4.0, 3.0, 2.0, 1.0], [0, 0, 0, 1, 1], true)
    ensures TopActives(desc, 2) == 0 && EfRatio(0, 2, 2, 5) == 0.0
  {
    MisreadRankingUnique(desc);
    assert Labels(desc)[..2] == [LabelOf(desc[0]), LabelOf(desc[1])] == [0, 0];
    assert Sum([0, 0]) == 0;
  }

  /** `v * (1 - q) == 1` at `q * 5 == 3` makes `v` 2.5. */
  lemma LegacyEfValue(ef: Option<real>, q: real)
    requires IsShare(q, 3, 5) && IsReciprocalEf(ef, q)
    ensures ef == Some(2.5)
  {
    assert q == 0.6;
    assert ef.value * 0.4 == 1.0;
  }

  /** The predictions are distinct, so the descending ranking is the input order. */
  lemma MisreadRankingUnique(desc: seq<Sample>)
    requires IsRanking(desc, [5.0, 4.0, 3.0, 2.0, 1.0], [0, 0, 0, 1, 1], true)
    ensures desc == [Sample(5.0, 0), Sample(4.0, 0), Sample(3.0, 0), Sample(2.0, 1), Sample(1.0, 1)]
  {
    var z := Zip([5.0, 4.0, 3.0, 2.0, 1.0], [0, 0, 0, 1, 1]);
    assert z == [Sample(5.0, 0), Sample(4.0, 0), Sample(3.0, 0), Sample(2.0, 1), Sample(1.0, 1)];
    FallingRankingUnique(z, desc);
  }
}

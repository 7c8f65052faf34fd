/** The rank-and-count statistics of `src/utils/calcs.py`: ROC threshold
    choice, hit counting, enrichment factors, total gain, and the rank
    extraction and branch choice of BEDROC (Truchon and Bayley, 2007).
    numpy results that come out NaN or infinite, and Python's
    ZeroDivisionError, are failures here. */
module Calcs {
  import opened Wrappers
  import opened Seqs
  import opened Ranking

  /** Why a statistic has no value. */
  datatype CalcError =
    | LengthMismatch   // the `assert len(y_true) == len(y_pred)` fails
    | ZeroDivision     // a divisor is zero: NaN/inf in numpy, an exception in plain Python

  // ---------------------------------------------------------------- ROC threshold

  /** `np.abs(fpr + tpr - 1)`: distance of each ROC point from the anti-diagonal. */
  function Deviation(fpr: seq<real>, tpr: seq<real>): seq<real>
    requires |fpr| == |tpr|
  {
    seq(|fpr|, i requires 0 <= i < |fpr| => Abs(fpr[i] + tpr[i] - 1.0))
  }

  /** `optimal_threshold`: the threshold at the first ROC point closest to
      the anti-diagonal. numpy's `argmin` raises on empty input and indexing
      raises past the end of `thresholds`; both are `None`. */
  function OptimalThreshold(fpr: seq<real>, tpr: seq<real>, thresholds: seq<real>): (r: Option<real>)
    ensures r.Some? ==> |fpr| == |tpr|
    ensures r.Some? ==> exists k :: IsFirstMin(Deviation(fpr, tpr), k) && k < |thresholds| && r.value == thresholds[k]
    ensures 0 < |fpr| == |tpr| <= |thresholds| ==> r.Some?
    ensures |fpr| != |tpr| || |fpr| == 0 ==> r.None?
  {
    if |fpr| != |tpr| || |fpr| == 0 then None
    else
      var k := ArgMin(Deviation(fpr, tpr));
      if k < |thresholds| then Some(thresholds[k]) else None
  }

  // ---------------------------------------------------------------- hits and EF

  datatype Hits = Hits(x: nat, t: nat)

  /** `calculate_hits`: the ones in `yTrueSorted[int(idx):]` and the ones in `activity`. */
  function CalculateHits(yTrueSorted: seq<int>, idxSelected: real, activity: seq<int>): (h: Hits)
    ensures h.x <= |yTrueSorted| && h.t <= |activity|
    ensures -1.0 < idxSelected < 1.0 ==> h.x == CountOnes(yTrueSorted)
    ensures idxSelected >= |yTrueSorted| as real ==> h.x == 0
  {
    var start := SliceIndex(Trunc(idxSelected), |yTrueSorted|);
    assert -1.0 < idxSelected < 1.0 ==> start == 0 && yTrueSorted[start..] == yTrueSorted;
    Hits(CountOnes(yTrueSorted[start..]), CountOnes(activity))
  }

  /** Over a rearrangement of `activity`, the hits from any start are at most
      all the hits, and exactly all of them when the start truncates to 0. */
  lemma HitsWithinTotal(yTrueSorted: seq<int>, idxSelected: real, activity: seq<int>)
    requires multiset(yTrueSorted) == multiset(activity)
    ensures CalculateHits(yTrueSorted, idxSelected, activity).x <= CalculateHits(yTrueSorted, idxSelected, activity).t
    ensures -1.0 < idxSelected < 1.0 ==>
              CalculateHits(yTrueSorted, idxSelected, activity).x == CalculateHits(yTrueSorted, idxSelected, activity).t
  {
    var start := SliceIndex(Trunc(idxSelected), |yTrueSorted|);
    CountOnesIsMultiplicity(yTrueSorted);
    CountOnesIsMultiplicity(activity);
    CountOnesSuffixMonotone(yTrueSorted, 0, start);
  }

  /** A later start index never finds more hits. */
  lemma HitsNonIncreasing(yTrueSorted: seq<int>, i: real, j: real, activity: seq<int>)
    requires 0.0 <= i <= j
    ensures CalculateHits(yTrueSorted, j, activity).x <= CalculateHits(yTrueSorted, i, activity).x
  {
    assert Trunc(i) <= Trunc(j);
    CountOnesSuffixMonotone(yTrueSorted, SliceIndex(Trunc(i), |yTrueSorted|), SliceIndex(Trunc(j), |yTrueSorted|));
  }

  /** `calculate_EF`: hits found over hits expected in the top fraction;
      undefined when there are no hits at all or the fraction is 0. */
  function CalculateEF(hitsX: int, hitsT: int, topxPercent: real): (r: Option<real>)
    ensures r.Some? <==> hitsT != 0 && topxPercent != 0.0
    ensures r.Some? ==> r.value * (hitsT as real * topxPercent) == hitsX as real
  {
    if hitsT == 0 || topxPercent == 0.0 then None
    else Some(hitsX as real / (hitsT as real * topxPercent))
  }

  /** `(top_actives / total) / (cutoff / n)`, the EF's two ratios, cleared of denominators. */
  function EfRatio(top: int, total: int, cutoff: int, n: int): (ef: real)
    requires total != 0 && cutoff != 0 && n != 0
    ensures ef == (top * n) as real / (total * cutoff) as real
  {
    var t, u, c, m := top as real, total as real, cutoff as real, n as real;
    assert (t / u) / (c / m) == (t * m) / (u * c);
    (t / u) / (c / m)
  }

  /** `int(len(y_true) * top_percentage)`. */
  function Cutoff(n: nat, topPercentage: real): (c: int)
    ensures topPercentage >= 0.0 ==> 0 <= c && c as real <= n as real * topPercentage < c as real + 1.0
  {
    Trunc(n as real * topPercentage)
  }

  /** `np.sum(sorted_y_true[:cutoff])`. */
  function TopActives(ranked: seq<Sample>, cutoff: int): (t: int)
    ensures IsBinary(Labels(ranked)) ==> 0 <= t <= SliceIndex(cutoff, |ranked|) && t <= Sum(Labels(ranked))
  {
    var k := SliceIndex(cutoff, |ranked|);
    assert IsBinary(Labels(ranked)) ==> 0 <= Sum(Labels(ranked)[..k]) <= k && Sum(Labels(ranked)[..k]) <= Sum(Labels(ranked)) by {
      if IsBinary(Labels(ranked)) {
        BinaryPrefixSum(Labels(ranked), k);
      }
    }
    Sum(Labels(ranked)[..k])
  }

  /** `calculate_enrichment_factor`: the share of all actives found in the
      first `cutoff` compounds by descending prediction, divided by the share
      of compounds those are. */
  function CalculateEnrichmentFactor(yTrue: seq<int>, yPred: seq<real>, topPercentage: real, ranked: seq<Sample>)
    : (r: Result<real, CalcError>)
    requires |yTrue| == |yPred| ==> IsRanking(ranked, yPred, yTrue, true)
    ensures r == Failure(LengthMismatch) <==> |yTrue| != |yPred|
    ensures r.Success? <==> |yTrue| == |yPred| && Cutoff(|yTrue|, topPercentage) != 0 && Sum(yTrue) != 0
    ensures r.Success? ==>
              r.value == (TopActives(ranked, Cutoff(|yTrue|, topPercentage)) * |yTrue|) as real
                         / (Sum(yTrue) * Cutoff(|yTrue|, topPercentage)) as real
  {
    if |yTrue| != |yPred| then Failure(LengthMismatch)
    else
      var n := |yTrue|;
      var cutoff := Cutoff(n, topPercentage);
      var total := Sum(yTrue);
      if cutoff == 0 || total == 0 then Failure(ZeroDivision)
      else
        Success(EfRatio(TopActives(ranked, cutoff), total, cutoff, n))
  }

  /** An EF ratio whose top count is at most the total lies in [0, n / cutoff]. */
  lemma EfRatioBounds(top: int, total: int, cutoff: int, n: int)
    requires 0 <= top <= total && 0 < total && 0 < cutoff && 0 < n
    ensures 0.0 <= (top * n) as real / (total * cutoff) as real <= n as real / cutoff as real
  {
    var d := (total * cutoff) as real;
    assert d > 0.0;
    assert (top * n) as real <= (total * n) as real;
    assert (total * n) as real / d == n as real / cutoff as real;
  }

  /** A fraction in [0, 1] of n compounds truncates to a cutoff in [0, n]. */
  lemma CutoffWithinPopulation(n: nat, topPercentage: real)
    requires 0.0 <= topPercentage <= 1.0
    ensures 0 <= Cutoff(n, topPercentage) <= n
  {
    assert 0.0 <= n as real * topPercentage <= n as real by {
      assert n as real * topPercentage <= n as real * 1.0;
    }
  }

  /** For 0/1 labels and a fraction in [0, 1]: the actives in the top are at
      most the cutoff and at most all actives, and the EF lies between 0 and
      N / cutoff. */
  lemma EnrichmentFactorBounds(yTrue: seq<int>, yPred: seq<real>, topPercentage: real, ranked: seq<Sample>)
    requires |yTrue| == |yPred| && IsRanking(ranked, yPred, yTrue, true)
    requires IsBinary(yTrue) && 0.0 <= topPercentage <= 1.0
    ensures 0 <= Cutoff(|yTrue|, topPercentage) <= |yTrue|
    ensures 0 <= TopActives(ranked, Cutoff(|yTrue|, topPercentage)) <= Cutoff(|yTrue|, topPercentage)
    ensures TopActives(ranked, Cutoff(|yTrue|, topPercentage)) <= Sum(yTrue)
    ensures var r := CalculateEnrichmentFactor(yTrue, yPred, topPercentage, ranked);
            r.Success? ==> 0.0 <= r.value <= |yTrue| as real / Cutoff(|yTrue|, topPercentage) as real
  {
    var n := |yTrue|;
    var c := Cutoff(n, topPercentage);
    CutoffWithinPopulation(n, topPercentage);
    RankingPreservesActives(ranked, yPred, yTrue, true);
    BinaryPrefixSum(Labels(ranked), c);
    var top := TopActives(ranked, c);
    assert top == Sum(Labels(ranked)[..c]);
    var r := CalculateEnrichmentFactor(yTrue, yPred, topPercentage, ranked);
    if r.Success? {
      EfRatioBounds(top, Sum(yTrue), c, n);
    }
  }

  lemma CutoffOfWhole(n: nat)
    ensures Cutoff(n, 1.0) == n
  {
  }

  /** A nonzero product divided by itself is 1. */
  lemma RatioOfSelf(t: int, n: int)
    requires t != 0 && n > 0
    ensures (t * n) as real / (t * n) as real == 1.0
  {
    var p := t * n;
    assert p != 0 by {
      if t > 0 { assert p >= n; } else { assert p <= -n; }
    }
    assert p as real / p as real == 1.0;
  }

  /** The whole of a ranking holds all the actives. */
  lemma TopOfWhole(yTrue: seq<int>, yPred: seq<real>, ranked: seq<Sample>)
    requires |yTrue| == |yPred| && IsRanking(ranked, yPred, yTrue, true)
    ensures TopActives(ranked, |yTrue|) == Sum(yTrue)
  {
    RankingPreservesActives(ranked, yPred, yTrue, true);
    assert Labels(ranked)[..|yTrue|] == Labels(ranked);
  }

  /** Taking the whole population (fraction 1) finds every active: the EF is exactly 1. */
  lemma EnrichmentFactorWholePopulation(yTrue: seq<int>, yPred: seq<real>, ranked: seq<Sample>)
    requires |yTrue| == |yPred| && IsRanking(ranked, yPred, yTrue, true)
    requires Sum(yTrue) != 0
    ensures CalculateEnrichmentFactor(yTrue, yPred, 1.0, ranked) == Success(1.0)
  {
    var n := |yTrue|;
    CutoffOfWhole(n);
    TopOfWhole(yTrue, yPred, ranked);
    assert n != 0;
    RatioOfSelf(Sum(yTrue), n);
  }

  /** Predictions 5, 4, 3, 2, 1 with the two best active and a top fraction
      of 0.4: the cutoff is 2, both actives are in it, and the EF is 2.5,
      whatever ranking argsort returns. */
  lemma EnrichmentFactorWorkedExample(ranked: seq<Sample>)
    requires IsRanking(ranked, [5.0, 4.0, 3.0, 2.0, 1.0], [1, 1, 0, 0, 0], true)
    ensures Cutoff(5, 0.4) == 2
    ensures CalculateEnrichmentFactor([1, 1, 0, 0, 0], [5.0, 4.0, 3.0, 2.0, 1.0], 0.4, ranked) == Success(2.5)
  {
    ExampleRankingUnique(ranked);
    ExampleTopActives(ranked);
    assert Sum([1, 1, 0, 0, 0]) == 2;
    assert Cutoff(5, 0.4) == 2;
    assert EfRatio(2, 2, 2, 5) == 2.5;
  }

  /** The example's predictions are distinct, so its ranking is the input order. */
  lemma ExampleRankingUnique(ranked: seq<Sample>)
    requires IsRanking(ranked, [5.0, 4.0, 3.0, 2.0, 1.0], [1, 1, 0, 0, 0], true)
    ensures ranked == [Sample(5.0, 1), Sample(4.0, 1), Sample(3.0, 0), Sample(2.0, 0), Sample(1.0, 0)]
  {
    var z := Zip([5.0, 4.0, 3.0, 2.0, 1.0], [1, 1, 0, 0, 0]);
    assert z == [Sample(5.0, 1), Sample(4.0, 1), Sample(3.0, 0), Sample(2.0, 0), Sample(1.0, 0)];
    FallingRankingUnique(z, ranked);
  }

  lemma ExampleTopActives(ranked: seq<Sample>)
    requires ranked == [Sample(5.0, 1), Sample(4.0, 1), Sample(3.0, 0), Sample(2.0, 0), Sample(1.0, 0)]
    ensures TopActives(ranked, 2) == 2
  {
    assert Labels(ranked)[..2] == [LabelOf(ranked[0]), LabelOf(ranked[1])] == [1, 1];
    assert Sum([1, 1]) == 2;
  }

  // ---------------------------------------------------------------- total gain

  /** `sum(abs(y_hat - p))`. */
  function SumAbsDeviation(yHat: seq<real>, p: real): (s: real)
    ensures s >= 0.0
  {
    if yHat == [] then 0.0 else Abs(yHat[0] - p) + SumAbsDeviation(yHat[1..], p)
  }

  /** `calculate_TG`: mean absolute deviation from the prevalence `p`, over
      2p(1 - p). An empty `y_hat` sums to 0; `p` of 0 or 1 divides by zero. */
  function CalculateTG(yHat: seq<real>, p: real): (r: Option<real>)
    ensures r.Some? <==> p != 0.0 && p != 1.0
    ensures r.Some? && 0.0 < p < 1.0 ==> r.value >= 0.0
    ensures r.Some? && yHat == [] ==> r.value == 0.0
  {
    if p == 0.0 || p == 1.0 then None
    else
      var mean := if yHat == [] then 0.0 else SumAbsDeviation(yHat, p) / |yHat| as real;
      var d := 2.0 * p * (1.0 - p);
      assert 0.0 < p < 1.0 ==> d > 0.0;
      Some(mean / d)
  }

  /** `calculate_pTG`: the total gain of the predictions from `idx_selected_t` on. */
  function CalculatePTG(yHat: seq<real>, idxSelected: int, p: real): (r: Option<real>)
    ensures r.Some? <==> p != 0.0 && p != 1.0
    ensures r.Some? && 0.0 < p < 1.0 ==> r.value >= 0.0
    ensures idxSelected == 0 ==> r == CalculateTG(yHat, p)
  {
    var rest := yHat[SliceIndex(idxSelected, |yHat|)..];
    assert idxSelected == 0 ==> rest == yHat;
    CalculateTG(rest, p)
  }

  // ---------------------------------------------------------------- BEDROC ranks

  /** The positions of the ones in `labels`, in increasing order
      (`(labels == 1).nonzero()[0]`). */
  function ActivePositions(labels: seq<int>): (m: seq<nat>)
    ensures |m| == CountOnes(labels)
    ensures forall i, j :: 0 <= i < j < |m| ==> m[i] < m[j]
    ensures forall i :: 0 <= i < |m| ==> m[i] < |labels| && labels[m[i]] == 1
    ensures forall p :: 0 <= p < |labels| && labels[p] == 1 ==> p in m
  {
    if labels == [] then []
    else
      var last := |labels| - 1;
      var init := labels[..last];
      var rest := ActivePositions(init);
      assert labels == init + [labels[last]];
      CountOnesSnoc(init, labels[last]);
      if labels[last] == 1 then rest + [last] else rest
  }

  /** `a < b` survives scaling both sides by a positive factor, both ways. */
  lemma ScaleLess(a: real, b: real, c: real)
    requires c > 0.0
    ensures a < b <==> a * c < b * c
  {
    assert (b - a) * c == b * c - a * c;
    if a < b { assert (b - a) * c > 0.0; }
    if b - a <= 0.0 { assert (b - a) * c <= 0.0; }
  }

  /** With `ra` the ratio `n / bigN`, the test `alpha * ra < 1` is `alpha * n < bigN`. */
  lemma RatioBranch(n: real, bigN: real, alpha: real, ra: real)
    requires bigN > 0.0 && ra == n / bigN
    ensures ra * bigN == n
    ensures alpha * ra < 1.0 <==> alpha * n < bigN
  {
    assert ra * bigN == n;
    ScaleLess(alpha * ra, 1.0, bigN);
    assert alpha * ra * bigN == alpha * (ra * bigN);
  }

  /** What `bedroc_score` derives from the ranking before its exponential
      terms: the population size, the number of actives, the positions of the
      actives in ranked order, their ratio, and whether the RIE bounds take
      the small-ratio branch. */
  datatype BedrocRanks = BedrocRanks(bigN: nat, n: nat, mRank: seq<nat>, ra: real, smallRaBranch: bool)

  /** `m` lists, in increasing order, exactly the positions of the actives in `ranked`. */
  ghost predicate IsActiveRanks(m: seq<nat>, ranked: seq<Sample>)
  {
    && (forall i, j :: 0 <= i < j < |m| ==> m[i] < m[j])
    && (forall i :: 0 <= i < |m| ==> m[i] < |ranked| && ranked[m[i]].activity == 1)
    && (forall p :: 0 <= p < |ranked| && ranked[p].activity == 1 ==> p in m)
  }

  /** The active positions of a ranking's labels are its active ranks, one per active compound. */
  lemma RankedActivePositions(ranked: seq<Sample>, yPred: seq<real>, yTrue: seq<int>, decreasing: bool)
    requires IsRanking(ranked, yPred, yTrue, decreasing)
    ensures |ranked| == |yTrue|
    ensures |ActivePositions(Labels(ranked))| == CountOnes(yTrue)
    ensures IsActiveRanks(ActivePositions(Labels(ranked)), ranked)
  {
    RankingPreservesActives(ranked, yPred, yTrue, decreasing);
    forall p | 0 <= p < |ranked|
      ensures Labels(ranked)[p] == ranked[p].activity
    {
      assert Labels(ranked)[p] == LabelOf(ranked[p]);
    }
  }

  /** The rank extraction and branch choice of `bedroc_score`. */
  function BedrocRankExtraction(yTrue: seq<int>, yPred: seq<real>, decreasing: bool, alpha: real, ranked: seq<Sample>)
    : (r: Result<BedrocRanks, CalcError>)
    requires |yTrue| == |yPred| ==> IsRanking(ranked, yPred, yTrue, decreasing)
    ensures r == Failure(LengthMismatch) <==> |yTrue| != |yPred|
    ensures r == Failure(ZeroDivision) <==> |yTrue| == |yPred| == 0
    ensures r.Success? ==>
              var b := r.value;
              && b.bigN == |yTrue| == |ranked|
              && b.n == CountOnes(yTrue) == |b.mRank|
              && IsActiveRanks(b.mRank, ranked)
              && RatioConsistent(b, alpha)
  {
    if |yTrue| != |yPred| then Failure(LengthMismatch)
    else if |yTrue| == 0 then Failure(ZeroDivision)
    else
      RankedActivePositions(ranked, yPred, yTrue, decreasing);
      var mRank := ActivePositions(Labels(ranked));
      var b := ActiveRatio(|yTrue|, CountOnes(yTrue), mRank, alpha);
      assert IsActiveRanks(b.mRank, ranked) && RatioConsistent(b, alpha);
      Success(b)
  }

  /** `ra` is the share of actives `n / bigN`, and the small-ratio branch is
      taken exactly when `alpha * n < bigN`. */
  predicate RatioConsistent(b: BedrocRanks, alpha: real)
  {
    && b.ra * b.bigN as real == b.n as real
    && (b.smallRaBranch <==> alpha * b.n as real < b.bigN as real)
  }

  /** `r_a = n / big_n` and the test `alpha * r_a < 1` that picks the RIE bounds. */
  function ActiveRatio(bigN: nat, n: nat, mRank: seq<nat>, alpha: real): (b: BedrocRanks)
    requires bigN > 0
    ensures b.bigN == bigN && b.n == n && b.mRank == mRank
    ensures RatioConsistent(b, alpha)
  {
    var ra := n as real / bigN as real;
    RatioBranch(n as real, bigN as real, alpha, ra);
    BedrocRanks(bigN, n, mRank, ra, alpha * ra < 1.0)
  }
}

/** Rankings: what `np.argsort` followed by fancy indexing produces. The
    source sorts predictions and reorders the activity labels with the same
    index array; the model keeps each (prediction, label) pair together and
    calls any rearrangement of the pairs that is ordered by prediction a
    ranking. numpy's default sort is not stable, so the tie order is left
    open: every operation that ranks takes the ranking as a parameter and
    holds for all of them. */
module Ranking {
  import opened Seqs

  /** One compound: its predicted activity probability and its label. */
  datatype Sample = Sample(pred: real, activity: int)

  /** The pairs `(preds[i], labels[i])` in input order. */
  function Zip(preds: seq<real>, labels: seq<int>): seq<Sample>
    requires |preds| == |labels|
  {
    seq(|preds|, i requires 0 <= i < |preds| => Sample(preds[i], labels[i]))
  }

  function LabelOf(x: Sample): int { x.activity }

  function PredOf(x: Sample): real { x.pred }

  /** The labels in ranked order (`activity[sorted_indices]`). */
  function Labels(r: seq<Sample>): seq<int> { Map(LabelOf, r) }

  /** The predictions in ranked order (`predictions[sorted_indices]`). */
  function Preds(r: seq<Sample>): seq<real> { Map(PredOf, r) }

  ghost predicate NonIncreasing(r: seq<Sample>)
  {
    forall i, j :: 0 <= i < j < |r| ==> r[i].pred >= r[j].pred
  }

  ghost predicate NonDecreasing(r: seq<Sample>)
  {
    forall i, j :: 0 <= i < j < |r| ==> r[i].pred <= r[j].pred
  }

  /** `r` is what argsort yields: the input pairs rearranged in descending
      (or ascending) order of prediction, ties in any order. */
  ghost predicate IsRanking(r: seq<Sample>, preds: seq<real>, labels: seq<int>, descending: bool)
  {
    && |preds| == |labels|
    && multiset(r) == multiset(Zip(preds, labels))
    && (if descending then NonIncreasing(r) else NonDecreasing(r))
  }

  /** A ranking carries exactly the input labels and predictions, rearranged. */
  lemma RankingContents(r: seq<Sample>, preds: seq<real>, labels: seq<int>, descending: bool)
    requires IsRanking(r, preds, labels, descending)
    ensures |r| == |labels|
    ensures multiset(Labels(r)) == multiset(labels)
    ensures multiset(Preds(r)) == multiset(preds)
  {
    assert |r| == |multiset(r)| == |Zip(preds, labels)|;
    MapPermutation(LabelOf, r, Zip(preds, labels));
    MapPermutation(PredOf, r, Zip(preds, labels));
    var z := Zip(preds, labels);
    assert Labels(z) == labels by {
      forall i | 0 <= i < |labels| ensures Labels(z)[i] == labels[i] {
        assert Labels(z)[i] == LabelOf(z[i]);
      }
    }
    assert Preds(z) == preds by {
      forall i | 0 <= i < |preds| ensures Preds(z)[i] == preds[i] {
        assert Preds(z)[i] == PredOf(z[i]);
      }
    }
  }

  /** Ranking keeps the number of compounds, the sum of the labels, the number
      of actives and whether the labels are all 0/1. */
  lemma RankingPreservesActives(r: seq<Sample>, preds: seq<real>, labels: seq<int>, descending: bool)
    requires IsRanking(r, preds, labels, descending)
    ensures |r| == |labels|
    ensures Sum(Labels(r)) == Sum(labels)
    ensures CountOnes(Labels(r)) == CountOnes(labels)
    ensures IsBinary(labels) ==> IsBinary(Labels(r))
  {
    RankingContents(r, preds, labels, descending);
    SumPermutation(Labels(r), labels);
    CountOnesIsMultiplicity(Labels(r));
    CountOnesIsMultiplicity(labels);
    if IsBinary(labels) {
      BinaryPermutation(labels, Labels(r));
    }
  }

  /** Insertion of one pair into a descending ranking, after the pairs whose
      prediction is larger. */
  function InsertDescending(x: Sample, r: seq<Sample>): (out: seq<Sample>)
    requires NonIncreasing(r)
    ensures multiset(out) == multiset(r) + multiset{x}
    ensures NonIncreasing(out)
    ensures |out| == |r| + 1 && (out[0] == x || (|r| > 0 && out[0] == r[0]))
  {
    if r == [] || x.pred >= r[0].pred then
      ConsNonIncreasing(x, r);
      [x] + r
    else
      assert r == [r[0]] + r[1..];
      var t := InsertDescending(x, r[1..]);
      ConsNonIncreasing(r[0], t);
      [r[0]] + t
  }

  /** A pair no smaller than the head of a descending ranking can go first. */
  lemma ConsNonIncreasing(h: Sample, t: seq<Sample>)
    requires NonIncreasing(t) && (|t| > 0 ==> h.pred >= t[0].pred)
    ensures NonIncreasing([h] + t)
  {
    var s := [h] + t;
    forall i, j | 0 <= i < j < |s| ensures s[i].pred >= s[j].pred {
      if i == 0 {
        assert s[j] == t[j - 1];
        assert t[0].pred >= t[j - 1].pred || j == 1;
      } else {
        assert s[i] == t[i - 1] && s[j] == t[j - 1];
      }
    }
  }

  /** Insertion sort by descending prediction. */
  function SortDescending(s: seq<Sample>): (r: seq<Sample>)
    ensures multiset(r) == multiset(s)
    ensures NonIncreasing(r)
  {
    if s == [] then []
    else
      assert s == [s[0]] + s[1..];
      InsertDescending(s[0], SortDescending(s[1..]))
  }

  /** One ranking by descending prediction (`np.argsort(-predictions)`); every
      input has one. */
  function RankDescending(preds: seq<real>, labels: seq<int>): (r: seq<Sample>)
    requires |preds| == |labels|
    ensures IsRanking(r, preds, labels, true)
  {
    SortDescending(Zip(preds, labels))
  }

  /** One ranking by ascending prediction (`np.argsort(predictions)`). */
  function RankAscending(preds: seq<real>, labels: seq<int>): (r: seq<Sample>)
    requires |preds| == |labels|
    ensures IsRanking(r, preds, labels, false)
  {
    var d := RankDescending(preds, labels);
    ReversePermutation(d);
    Reverse(d)
  }

  /** Two descending rankings of the same pairs start with the same pair when
      the predictions of the first are pairwise distinct. */
  lemma HeadsAgree(a: seq<Sample>, b: seq<Sample>)
    requires a != [] && multiset(a) == multiset(b)
    requires NonIncreasing(a) && NonIncreasing(b)
    requires forall i, j :: 0 <= i < j < |a| ==> a[i].pred != a[j].pred
    ensures b != [] && a[0] == b[0]
  {
    assert a[0] in multiset(b);
    var k :| 0 <= k < |b| && b[k] == a[0];
    assert b[0] in multiset(a);
    var m :| 0 <= m < |a| && a[m] == b[0];
    assert b[0].pred >= b[k].pred;
    assert a[0].pred >= a[m].pred;
  }

  /** With pairwise distinct predictions there is only one descending ranking:
      the tie order is then irrelevant. */
  lemma {:induction false} DistinctRankingUnique(a: seq<Sample>, b: seq<Sample>)
    requires multiset(a) == multiset(b)
    requires NonIncreasing(a) && NonIncreasing(b)
    requires forall i, j :: 0 <= i < j < |a| ==> a[i].pred != a[j].pred
    ensures a == b
    decreases |a|
  {
    if a == [] {
      assert |b| == |multiset(b)| == 0;
    } else {
      HeadsAgree(a, b);
      TailsRanked(a, b);
      DistinctRankingUnique(a[1..], b[1..]);
      assert a == [a[0]] + a[1..] && b == [b[0]] + b[1..];
    }
  }

  /** Two descending rankings of the same pairs with the same head rank the
      same remaining pairs. */
  lemma TailsRanked(a: seq<Sample>, b: seq<Sample>)
    requires a != [] && b != [] && a[0] == b[0] && multiset(a) == multiset(b)
    requires NonIncreasing(a) && NonIncreasing(b)
    requires forall i, j :: 0 <= i < j < |a| ==> a[i].pred != a[j].pred
    ensures multiset(a[1..]) == multiset(b[1..])
    ensures NonIncreasing(a[1..]) && NonIncreasing(b[1..])
    ensures forall i, j :: 0 <= i < j < |a[1..]| ==> a[1..][i].pred != a[1..][j].pred
  {
    assert a == [a[0]] + a[1..];
    assert b == [b[0]] + b[1..];
    assert multiset(a[1..]) == multiset(a) - multiset{a[0]};
    assert multiset(b[1..]) == multiset(b) - multiset{b[0]};
  }

  /** Each prediction is strictly above the next one. */
  ghost predicate StrictlyFalling(a: seq<Sample>)
    decreases |a|
  {
    |a| < 2 || (a[0].pred > a[1].pred && StrictlyFalling(a[1..]))
  }

  lemma {:induction false} StrictlyFallingPairwise(a: seq<Sample>)
    requires StrictlyFalling(a)
    ensures forall i, j :: 0 <= i < j < |a| ==> a[i].pred > a[j].pred
    decreases |a|
  {
    if |a| > 1 {
      StrictlyFallingPairwise(a[1..]);
      forall i, j | 0 <= i < j < |a| ensures a[i].pred > a[j].pred {
        if i > 0 {
          assert a[i] == a[1..][i - 1] && a[j] == a[1..][j - 1];
        } else if j > 1 {
          assert a[1] == a[1..][0] && a[j] == a[1..][j - 1];
        }
      }
    }
  }

  /** A ranking of strictly falling predictions is the only descending one. */
  lemma FallingRankingUnique(a: seq<Sample>, b: seq<Sample>)
    requires multiset(a) == multiset(b) && StrictlyFalling(a) && NonIncreasing(b)
    ensures a == b
  {
    StrictlyFallingPairwise(a);
    DistinctRankingUnique(a, b);
  }
}

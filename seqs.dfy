/** Sequence helpers shared by the statistics modules: element-wise maps,
    sums and counts, reversal, Python's integer conversion and slice bounds,
    and first-minimiser search (numpy's `argmin`). */
module Seqs {

  /** `[f(x) for x in s]`. */
  function Map<A, B>(f: A -> B, s: seq<A>): seq<B>
  {
    seq(|s|, i requires 0 <= i < |s| => f(s[i]))
  }

  lemma MapConcat<A, B>(f: A -> B, a: seq<A>, b: seq<A>)
    ensures Map(f, a + b) == Map(f, a) + Map(f, b)
  {
  }

  /** The head of `a` sits somewhere in its rearrangement `b`; removing it from
      both leaves two sequences that are still rearrangements of each other. */
  lemma RemoveHead<T>(a: seq<T>, b: seq<T>) returns (k: nat)
    requires a != [] && multiset(a) == multiset(b)
    ensures k < |b| && b[k] == a[0]
    ensures multiset(a[1..]) == multiset(b[..k] + b[k + 1..])
  {
    assert a[0] in multiset(b);
    k :| 0 <= k < |b| && b[k] == a[0];
    assert b == b[..k] + [b[k]] + b[k + 1..];
    assert a == [a[0]] + a[1..];
    assert multiset(a[1..]) == multiset(a) - multiset{a[0]};
    assert multiset(b[..k] + b[k + 1..]) == multiset(b) - multiset{a[0]};
  }

  /** Rearranging a sequence rearranges its image: a map preserves permutations. */
  lemma {:induction false} MapPermutation<A, B>(f: A -> B, a: seq<A>, b: seq<A>)
    requires multiset(a) == multiset(b)
    ensures multiset(Map(f, a)) == multiset(Map(f, b))
    decreases |a|
  {
    if a == [] {
      assert |b| == |multiset(b)| == 0;
    } else {
      var k := RemoveHead(a, b);
      MapPermutation(f, a[1..], b[..k] + b[k + 1..]);
      assert b == b[..k] + [b[k]] + b[k + 1..];
      assert a == [a[0]] + a[1..];
      MapConcat(f, b[..k] + [b[k]], b[k + 1..]);
      MapConcat(f, b[..k], [b[k]]);
      MapConcat(f, b[..k], b[k + 1..]);
      MapConcat(f, [a[0]], a[1..]);
    }
  }

  /** Python's `sum` / numpy's `np.sum` over integers. */
  function Sum(s: seq<int>): int
  {
    if s == [] then 0 else s[0] + Sum(s[1..])
  }

  lemma {:induction false} SumConcat(a: seq<int>, b: seq<int>)
    ensures Sum(a + b) == Sum(a) + Sum(b)
    decreases |a|
  {
    if a == [] {
      assert a + b == b;
    } else {
      assert (a + b)[1..] == a[1..] + b;
      assert (a + b)[0] == a[0];
      SumConcat(a[1..], b);
    }
  }

  /** The sum of a sequence depends only on its multiset of elements. */
  lemma {:induction false} SumPermutation(a: seq<int>, b: seq<int>)
    requires multiset(a) == multiset(b)
    ensures Sum(a) == Sum(b)
    decreases |a|
  {
    if a == [] {
      assert |b| == |multiset(b)| == 0;
    } else {
      var k := RemoveHead(a, b);
      SumPermutation(a[1..], b[..k] + b[k + 1..]);
      assert b[k..] == [b[k]] + b[k + 1..];
      assert b == b[..k] + b[k..];
      SumConcat(b[..k], b[k..]);
      SumConcat(b[..k], b[k + 1..]);
    }
  }

  /** numpy's `np.where(s == 1)` size: how many entries equal 1. */
  function CountOnes(s: seq<int>): (n: nat)
    ensures n <= |s|
  {
    if s == [] then 0 else (if s[0] == 1 then 1 else 0) + CountOnes(s[1..])
  }

  /** Counting ones is counting the multiplicity of 1, so it is blind to order. */
  lemma {:induction false} CountOnesIsMultiplicity(s: seq<int>)
    ensures CountOnes(s) == multiset(s)[1]
  {
    if s != [] {
      assert s == [s[0]] + s[1..];
      assert multiset(s) == multiset{s[0]} + multiset(s[1..]);
      CountOnesIsMultiplicity(s[1..]);
    }
  }

  /** Appending one element adds one to the count exactly when it is a 1. */
  lemma {:induction false} CountOnesSnoc(s: seq<int>, x: int)
    ensures CountOnes(s + [x]) == CountOnes(s) + (if x == 1 then 1 else 0)
  {
    if s == [] {
      assert s + [x] == [x];
    } else {
      assert (s + [x])[1..] == s[1..] + [x];
      CountOnesSnoc(s[1..], x);
    }
  }

  /** Dropping a prefix never adds ones; dropping one more element never adds ones either. */
  lemma {:induction false} CountOnesSuffixMonotone(s: seq<int>, i: nat, j: nat)
    requires i <= j <= |s|
    ensures CountOnes(s[j..]) <= CountOnes(s[i..])
    decreases j - i
  {
    if i < j {
      assert s[i..][1..] == s[i + 1..];
      CountOnesSuffixMonotone(s, i + 1, j);
    }
  }

  /** Class labels: every entry is 0 or 1. */
  predicate IsBinary(s: seq<int>)
  {
    forall i :: 0 <= i < |s| ==> s[i] == 0 || s[i] == 1
  }

  lemma BinaryPermutation(a: seq<int>, b: seq<int>)
    requires multiset(a) == multiset(b) && IsBinary(a)
    ensures IsBinary(b)
  {
    forall i | 0 <= i < |b| ensures b[i] == 0 || b[i] == 1 {
      assert b[i] in multiset(b);
      assert b[i] in a;
    }
  }

  /** For 0/1 labels the sum is the number of ones. */
  lemma {:induction false} BinarySumIsCount(s: seq<int>)
    requires IsBinary(s)
    ensures Sum(s) == CountOnes(s)
  {
    if s != [] {
      BinarySumIsCount(s[1..]);
    }
  }

  /** A prefix of 0/1 labels holds no more ones than its length or than the whole. */
  lemma {:induction false} BinaryPrefixSum(s: seq<int>, k: nat)
    requires IsBinary(s) && k <= |s|
    ensures 0 <= Sum(s[..k]) <= k
    ensures Sum(s[..k]) <= Sum(s)
  {
    assert s == s[..k] + s[k..];
    SumConcat(s[..k], s[k..]);
    BinarySumIsCount(s[..k]);
    BinarySumIsCount(s[k..]);
  }

  /** `s[::-1]`. */
  function Reverse<T>(s: seq<T>): seq<T>
  {
    seq(|s|, i requires 0 <= i < |s| => s[|s| - 1 - i])
  }

  lemma {:induction false} ReversePermutation<T>(s: seq<T>)
    ensures multiset(Reverse(s)) == multiset(s)
  {
    if s != [] {
      assert Reverse(s) == Reverse(s[1..]) + [s[0]];
      assert s == [s[0]] + s[1..];
      ReversePermutation(s[1..]);
    }
  }

  /** Python's `int(x)` on a float: truncation toward zero. */
  function Trunc(x: real): (r: int)
    ensures x >= 0.0 ==> 0 <= r && r as real <= x < r as real + 1.0
    ensures x < 0.0 ==> r <= 0 && r as real - 1.0 < x <= r as real
  {
    if x >= 0.0 then x.Floor else -((-x).Floor)
  }

  /** The position a Python slice bound `k` denotes in a sequence of length `n`:
      negative bounds count from the end, and bounds are clamped to [0, n]. */
  function SliceIndex(k: int, n: nat): (i: nat)
    ensures i <= n
    ensures 0 <= k <= n ==> i == k
    ensures k > n ==> i == n
    ensures -(n as int) <= k < 0 ==> i == n + k
    ensures k < -(n as int) ==> i == 0
  {
    if k < 0 then (if n + k < 0 then 0 else n + k) else if k > n then n else k
  }

  /** Dividing by a nonzero `m` and multiplying back gives the original. */
  lemma QuotientTimes(v: real, m: real)
    requires m != 0.0
    ensures v / m * m == v
  {
  }

  function Abs(x: real): real
  {
    if x < 0.0 then -x else x
  }

  /** Index `k` is the first position at which `s` takes its minimum. */
  ghost predicate IsFirstMin(s: seq<real>, k: int)
  {
    && 0 <= k < |s|
    && (forall j :: 0 <= j < |s| ==> s[k] <= s[j])
    && (forall j :: 0 <= j < k ==> s[k] < s[j])
  }

  /** numpy's `argmin`: the first index of a minimal element. */
  function ArgMin(s: seq<real>): (k: nat)
    requires |s| > 0
    ensures IsFirstMin(s, k)
  {
    if |s| == 1 then 0
    else
      var k := ArgMin(s[..|s| - 1]);
      if s[|s| - 1] < s[k] then |s| - 1 else k
  }
}

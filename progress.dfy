/** The progress estimator of app/api/next-pair/route.ts: the number of
    comparisons binary insertion needs in the worst case, used as the
    completion threshold. `Math.ceil(Math.log2(i))` is modelled exactly, as
    the least `k` with `2^k >= i`. */
module Progress {

  function Pow2(k: nat): (p: nat)
    ensures p >= 1
  {
    if k == 0 then 1 else 2 * Pow2(k - 1)
  }

  lemma {:induction false} Pow2Monotone(a: nat, b: nat)
    requires a <= b
    ensures Pow2(a) <= Pow2(b)
  {
    if a < b {
      Pow2Monotone(a, b - 1);
    }
  }

  /** `ceil(log2 i)` for `i >= 1`: the least exponent whose power of two
      reaches `i`. */
  function CeilLog2(i: nat): (k: nat)
    requires i >= 1
    ensures i <= Pow2(k)
    ensures k > 0 ==> Pow2(k - 1) < i
    decreases i
  {
    if i == 1 then 0 else 1 + CeilLog2((i + 1) / 2)
  }

  /** `CeilLog2(i)` is below every exponent whose power reaches `i`. */
  lemma CeilLog2Least(i: nat, k: nat)
    requires i >= 1 && i <= Pow2(k)
    ensures CeilLog2(i) <= k
  {
    if CeilLog2(i) > k {
      Pow2Monotone(k, CeilLog2(i) - 1);
    }
  }

  lemma CeilLog2Monotone(i: nat, j: nat)
    requires 1 <= i <= j
    ensures CeilLog2(i) <= CeilLog2(j)
  {
    CeilLog2Least(i, CeilLog2(j));
  }

  /** Halving a window of `w + 1` slots costs exactly one comparison:
      `ceil(log2 (w + 1)) == 1 + ceil(log2 (w / 2 + 1))` for `w >= 1`. */
  lemma CeilLog2Halving(w: nat)
    requires w >= 1
    ensures CeilLog2(w + 1) == 1 + CeilLog2(w / 2 + 1)
  {
    assert (w + 1 + 1) / 2 == w / 2 + 1;
  }

  /** `sum_{i=1..n} ceil(log2 i)` (lines 6-11). */
  function ExpectedComparisons(n: nat): nat
  {
    if n == 0 then 0 else ExpectedComparisons(n - 1) + CeilLog2(n)
  }

  /** The loop of `expectedComparisons` (lines 7-11). A negative count never
      enters the loop. */
  method ComputeExpectedComparisons(count: int) returns (total: nat)
    ensures count <= 0 ==> total == 0
    ensures count >= 0 ==> total == ExpectedComparisons(count)
  {
    total := 0;
    var i: nat := 1;
    while i <= count
      invariant 1 <= i
      invariant i <= (if count >= 0 then count + 1 else 1)
      invariant total == ExpectedComparisons(i - 1)
    {
      var step := CeilLog2(i);
      total := total + step;
      i := i + 1;
    }
  }

  /** The first two items cost nothing: `expectedComparisons(0) == expectedComparisons(1) == 0`;
      then 1, 3, 5, 8 for n = 2..5. */
  lemma ExpectedComparisonsSmallValues()
    ensures ExpectedComparisons(0) == 0 && ExpectedComparisons(1) == 0
    ensures ExpectedComparisons(2) == 1 && ExpectedComparisons(3) == 3
    ensures ExpectedComparisons(4) == 5 && ExpectedComparisons(5) == 8
  {
    assert CeilLog2(2) == 1;
    assert CeilLog2(3) == 2 by { assert CeilLog2(2) == 1; }
    assert CeilLog2(4) == 2 by { assert CeilLog2(2) == 1; }
    assert CeilLog2(5) == 3 by { assert CeilLog2(3) == 2; }
    assert ExpectedComparisons(2) == 1;
    assert ExpectedComparisons(3) == 3;
    assert ExpectedComparisons(4) == 5;
  }

  /** The increment from `n` to `n + 1` items is `ceil(log2 (n + 1))`, so the
      threshold never decreases as the dataset grows. */
  lemma {:induction false} ExpectedComparisonsMonotone(m: nat, n: nat)
    requires m <= n
    ensures ExpectedComparisons(m) <= ExpectedComparisons(n)
    ensures ExpectedComparisons(n + 1) - ExpectedComparisons(n) == CeilLog2(n + 1)
  {
    if m < n {
      ExpectedComparisonsMonotone(m, n - 1);
    }
  }

  /** Every item after the first costs at least one comparison, and none costs
      more than `ceil(log2 n)`. */
  lemma {:induction false} ExpectedComparisonsBounds(n: nat)
    requires n >= 1
    ensures n - 1 <= ExpectedComparisons(n) <= n * CeilLog2(n)
  {
    if n > 1 {
      ExpectedComparisonsBounds(n - 1);
      CeilLog2Monotone(n - 1, n);
      var a, b := CeilLog2(n - 1), CeilLog2(n);
      assert b >= 1;
      MulMonotone(n - 1, a, b);
      assert n * b == (n - 1) * b + b;
    }
  }

  lemma MulMonotone(x: nat, a: nat, b: nat)
    requires a <= b
    ensures x * a <= x * b
  {
  }

  /** The threshold is positive exactly when there are at least two items. */
  lemma ExpectedComparisonsPositive(n: nat)
    ensures ExpectedComparisons(n) > 0 <==> n >= 2
  {
    if n >= 2 {
      ExpectedComparisonsBounds(n);
    }
  }
}

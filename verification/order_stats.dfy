/**
 * The reductions applied to the bootstrap predictions of one sample: sum,
 * mean, population and sample variance, sorting, minimum and maximum, and
 * the linearly interpolated quantile (Hyndman and Fan definition 7, the
 * default of numpy's quantile) with the median as its midpoint.
 */
module OrderStats {

  function Sum(xs: seq<real>): real {
    if |xs| == 0 then 0.0 else xs[0] + Sum(xs[1..])
  }

  /** Sum of squared deviations from `m`. */
  function SumSq(xs: seq<real>, m: real): real {
    if |xs| == 0 then 0.0 else (xs[0] - m) * (xs[0] - m) + SumSq(xs[1..], m)
  }

  predicate Sorted(s: seq<real>) {
    forall i, j :: 0 <= i < j < |s| ==> s[i] <= s[j]
  }

  /** The least element. */
  function Min(xs: seq<real>): (m: real)
    requires |xs| > 0
    ensures m in xs
    ensures forall x :: x in xs ==> m <= x
  {
    if |xs| == 1 then xs[0]
    else
      var rest := Min(xs[1..]);
      assert forall x :: x in xs ==> x == xs[0] || x in xs[1..];
      if xs[0] <= rest then xs[0] else rest
  }

  /** The greatest element. */
  function Max(xs: seq<real>): (m: real)
    requires |xs| > 0
    ensures m in xs
    ensures forall x :: x in xs ==> x <= m
  {
    if |xs| == 1 then xs[0]
    else
      var rest := Max(xs[1..]);
      assert forall x :: x in xs ==> x == xs[0] || x in xs[1..];
      if rest <= xs[0] then xs[0] else rest
  }

  /** `numpy.mean` of a non-empty vector: `|xs|` copies of it add up to the sum. */
  function Mean(xs: seq<real>): (m: real)
    requires |xs| > 0
    ensures |xs| as real * m == Sum(xs)
  {
    CancelDivision(Sum(xs), |xs| as real, Sum(xs) / |xs| as real);
    Sum(xs) / |xs| as real
  }

  lemma CancelDivision(total: real, n: real, q: real)
    requires n > 0.0 && q == total / n
    ensures n * q == total
  {
  }

  /** The mean lies between the least and the greatest element. */
  lemma MeanBounds(xs: seq<real>)
    requires |xs| > 0
    ensures Min(xs) <= Mean(xs) <= Max(xs)
  {
    MeanBetween(xs, Min(xs), Max(xs));
  }

  /** A mean of values in `[lo, hi]` is in `[lo, hi]`. */
  lemma MeanBetween(xs: seq<real>, lo: real, hi: real)
    requires |xs| > 0
    requires forall x :: x in xs ==> lo <= x <= hi
    ensures lo <= Mean(xs) <= hi
  {
    SumBounds(xs, lo, hi);
    DivideLower(Sum(xs), |xs| as real, lo, Mean(xs));
    DivideUpper(Sum(xs), |xs| as real, hi, Mean(xs));
  }

  lemma DivideLower(total: real, n: real, lo: real, q: real)
    requires n > 0.0 && n * lo <= total && q == total / n
    ensures lo <= q
  {
    assert (q - lo) * n == total - n * lo;
  }

  lemma DivideUpper(total: real, n: real, hi: real, q: real)
    requires n > 0.0 && total <= n * hi && q == total / n
    ensures q <= hi
  {
    assert (hi - q) * n == n * hi - total;
  }

  /** The square of `numpy.std` (population variance, no degrees-of-freedom correction). */
  function PopVariance(xs: seq<real>): (r: real)
    requires |xs| > 0
    ensures r >= 0.0
  {
    SumSqNonNegative(xs, Mean(xs));
    SumSq(xs, Mean(xs)) / |xs| as real
  }

  /** The square of the pandas row `std` (sample variance, one degree-of-freedom correction). */
  function SampleVariance(xs: seq<real>): (r: real)
    requires |xs| >= 2
    ensures r >= 0.0
  {
    SumSqNonNegative(xs, Mean(xs));
    SumSq(xs, Mean(xs)) / (|xs| - 1) as real
  }

  /** The sample variance is zero exactly when all the values coincide. */
  lemma VarianceZeroIffConstant(xs: seq<real>)
    requires |xs| >= 2
    ensures SampleVariance(xs) == 0.0 <==> forall i :: 0 <= i < |xs| ==> xs[i] == xs[0]
  {
    var m := Mean(xs);
    if forall i :: 0 <= i < |xs| ==> xs[i] == xs[0] {
      assert AllEqual(xs, xs[0]);
      ConstantMoments(xs, xs[0]);
      SumSqConstant(xs, xs[0]);
    }
    if SampleVariance(xs) == 0.0 {
      CancelDivision(SumSq(xs, m), (|xs| - 1) as real, SampleVariance(xs));
      SumSqZero(xs, m);
    }
  }

  /** Squared deviations that add up to zero leave every value at `m`. */
  lemma {:induction false} SumSqZero(xs: seq<real>, m: real)
    requires SumSq(xs, m) == 0.0
    ensures forall i :: 0 <= i < |xs| ==> xs[i] == m
  {
    if |xs| > 0 {
      SumSqNonNegative(xs[1..], m);
      SquareNonNegative(xs[0] - m);
      SquareZero(xs[0] - m);
      SumSqZero(xs[1..], m);
      assert forall i :: 1 <= i < |xs| ==> xs[i] == xs[1..][i - 1];
    }
  }

  lemma SquareZero(d: real)
    requires d * d == 0.0
    ensures d == 0.0
  {
    if d != 0.0 {
      ZeroFactor(d, d);
    }
  }

  lemma ZeroFactor(a: real, b: real)
    requires b != 0.0 && a * b == 0.0
    ensures a == 0.0
  {
    assert a == (a * b) / b;
  }

  lemma {:induction false} SumBounds(xs: seq<real>, lo: real, hi: real)
    requires forall x :: x in xs ==> lo <= x <= hi
    ensures |xs| as real * lo <= Sum(xs) <= |xs| as real * hi
  {
    if |xs| > 0 {
      assert xs[0] in xs;
      assert forall x :: x in xs[1..] ==> x in xs;
      SumBounds(xs[1..], lo, hi);
    }
  }

  lemma {:induction false} SumSqNonNegative(xs: seq<real>, m: real)
    ensures SumSq(xs, m) >= 0.0
  {
    if |xs| > 0 {
      SumSqNonNegative(xs[1..], m);
      SquareNonNegative(xs[0] - m);
    }
  }

  lemma SquareNonNegative(d: real)
    ensures d * d >= 0.0
  {
    if d < 0.0 {
      assert d * d == (-d) * (-d);
    }
  }

  /** Insert `x` into a sorted sequence, keeping it sorted. */
  function Insert(x: real, s: seq<real>): (r: seq<real>)
    requires Sorted(s)
    ensures Sorted(r)
    ensures multiset(r) == multiset(s) + multiset{x}
    ensures |r| == |s| + 1
  {
    if |s| == 0 then [x]
    else if x <= s[0] then
      PrependSorted(x, s);
      [x] + s
    else
      var rest := Insert(x, s[1..]);
      assert s == [s[0]] + s[1..];
      InsertHead(x, s, rest);
      PrependSorted(s[0], rest);
      [s[0]] + rest
  }

  lemma PrependSorted(a: real, s: seq<real>)
    requires Sorted(s)
    requires forall y :: y in s ==> a <= y
    ensures Sorted([a] + s)
  {
    var r := [a] + s;
    forall i, j | 0 <= i < j < |r| ensures r[i] <= r[j] {
      assert r[j] == s[j - 1];
      if i > 0 {
        assert r[i] == s[i - 1];
      } else {
        assert s[j - 1] in s;
      }
    }
  }

  lemma InsertHead(x: real, s: seq<real>, rest: seq<real>)
    requires Sorted(s) && |s| > 0 && s[0] < x
    requires multiset(rest) == multiset(s[1..]) + multiset{x}
    ensures forall y :: y in rest ==> s[0] <= y
  {
    forall y | y in rest ensures s[0] <= y {
      assert y in multiset(rest);
      if y != x {
        assert y in multiset(s[1..]);
        assert y in s[1..];
        var k :| 0 <= k < |s| - 1 && s[1..][k] == y;
        assert s[k + 1] == y;
      }
    }
  }

  /** The values in ascending order (a sorted permutation of the input). */
  function Sort(xs: seq<real>): (r: seq<real>)
    ensures Sorted(r)
    ensures multiset(r) == multiset(xs)
    ensures |r| == |xs|
  {
    if |xs| == 0 then []
    else
      assert xs == [xs[0]] + xs[1..];
      Insert(xs[0], Sort(xs[1..]))
  }

  /** The first and last order statistics are the minimum and the maximum. */
  lemma SortEnds(xs: seq<real>)
    requires |xs| > 0
    ensures Sort(xs)[0] == Min(xs)
    ensures Sort(xs)[|xs| - 1] == Max(xs)
  {
    var s := Sort(xs);
    var n := |xs|;
    assert |s| == n;
    SameElements(xs, s);
    SortedEnds(s, xs);
    assert s[n - 1] == Max(xs);
  }

  /** An ascending sequence with the elements of `xs` starts at its minimum and ends at its maximum. */
  lemma SortedEnds(s: seq<real>, xs: seq<real>)
    requires |s| > 0 && |xs| > 0 && Sorted(s)
    requires forall y :: y in s <==> y in xs
    ensures s[0] == Min(xs) && s[|s| - 1] == Max(xs)
  {
    var n := |s|;
    assert s[0] in xs && s[n - 1] in xs;
    var lo, hi := Min(xs), Max(xs);
    assert lo in s && hi in s;
    var i :| 0 <= i < n && s[i] == lo;
    var j :| 0 <= j < n && s[j] == hi;
    assert s[0] <= s[i];
    assert s[j] <= s[n - 1];
  }

  /** Permutations have the same elements. */
  lemma SameElements(xs: seq<real>, ys: seq<real>)
    requires multiset(xs) == multiset(ys)
    ensures forall y :: y in ys <==> y in xs
  {
    forall y ensures y in ys <==> y in xs {
      assert y in ys <==> y in multiset(ys);
      assert y in xs <==> y in multiset(xs);
    }
  }

  /**
   * Linear interpolation at virtual index `h` between the order statistics
   * `s[floor(h)]` and `s[floor(h) + 1]`.
   */
  function Interpolate(s: seq<real>, h: real): real
    requires |s| > 0 && 0.0 <= h <= (|s| - 1) as real
  {
    var lo := h.Floor;
    if lo + 1 < |s| then Lerp(s[lo], s[lo + 1], h - lo as real) else s[lo]
  }

  /** The point a fraction `g` of the way from `a` to `b`. */
  function Lerp(a: real, b: real, g: real): real {
    a + g * (b - a)
  }

  /** `numpy.quantile(xs, q)` with the default linear method. */
  function Quantile(xs: seq<real>, q: real): (r: real)
    requires |xs| > 0 && 0.0 <= q <= 1.0
    ensures Min(xs) <= r <= Max(xs)
    ensures q == 0.0 ==> r == Min(xs)
    ensures q == 1.0 ==> r == Max(xs)
  {
    var s := Sort(xs);
    var h := VirtualIndex(|xs|, q);
    VirtualIndexEnds(|xs|, q);
    SortEnds(xs);
    InterpolateEnds(s, h);
    Interpolate(s, h)
  }

  /** Level 0 sits at the first order statistic and level 1 at the last. */
  lemma VirtualIndexEnds(n: nat, q: real)
    requires n > 0 && 0.0 <= q <= 1.0
    ensures q == 0.0 ==> VirtualIndex(n, q) == 0.0
    ensures q == 1.0 ==> VirtualIndex(n, q) == (n - 1) as real
  {
  }

  lemma VirtualIndexMonotone(n: nat, q1: real, q2: real)
    requires n > 0 && 0.0 <= q1 <= q2 <= 1.0
    ensures VirtualIndex(n, q1) <= VirtualIndex(n, q2)
  {
    ScaleMonotone(q1, q2, (n - 1) as real);
  }

  /** The fractional position `(n - 1) * q` of level `q` among `n` order statistics. */
  function VirtualIndex(n: nat, q: real): (h: real)
    requires n > 0 && 0.0 <= q <= 1.0
    ensures 0.0 <= h <= (n - 1) as real
  {
    ScaleBetween(q, (n - 1) as real);
    q * (n - 1) as real
  }

  /** `numpy.median`: the middle order statistic, or the mean of the two middle ones. */
  function Median(xs: seq<real>): (r: real)
    requires |xs| > 0
    ensures Min(xs) <= r <= Max(xs)
    ensures |xs| % 2 == 1 ==> r in xs
  {
    var s := Sort(xs);
    var n := |s|;
    SortEnds(xs);
    SameElements(xs, s);
    if n % 2 == 1 then
      assert s[0] <= s[n / 2] <= s[n - 1];
      s[n / 2]
    else
      assert s[0] <= s[n / 2 - 1] <= s[n / 2] <= s[n - 1];
      (s[n / 2 - 1] + s[n / 2]) / 2.0
  }

  lemma ScaleBetween(g: real, d: real)
    requires 0.0 <= g <= 1.0 && d >= 0.0
    ensures 0.0 <= g * d <= d
  {
    assert g * d <= 1.0 * d;
  }

  lemma ScaleMonotone(g1: real, g2: real, d: real)
    requires g1 <= g2 && d >= 0.0
    ensures g1 * d <= g2 * d
  {
    assert g2 * d - g1 * d == (g2 - g1) * d;
  }

  /** Between two ascending points, the interpolant lies between them and grows with the fraction. */
  lemma LerpMonotone(a: real, b: real, g1: real, g2: real)
    requires a <= b && 0.0 <= g1 <= g2 <= 1.0
    ensures a <= Lerp(a, b, g1) <= Lerp(a, b, g2) <= b
  {
    NonNegativeProduct(g1, b - a);
    NonNegativeProduct(g2 - g1, b - a);
    NonNegativeProduct(1.0 - g2, b - a);
    assert Lerp(a, b, g2) - Lerp(a, b, g1) == (g2 - g1) * (b - a);
    assert b - Lerp(a, b, g2) == (1.0 - g2) * (b - a);
  }

  lemma NonNegativeProduct(x: real, y: real)
    requires x >= 0.0 && y >= 0.0
    ensures x * y >= 0.0
  {
  }

  /** An interpolated value lies between its two neighbouring order statistics. */
  lemma InterpolateBetween(s: seq<real>, h: real)
    requires Sorted(s) && |s| > 0 && 0.0 <= h <= (|s| - 1) as real
    ensures s[h.Floor] <= Interpolate(s, h)
    ensures h.Floor + 1 < |s| ==> Interpolate(s, h) <= s[h.Floor + 1]
    ensures h.Floor + 1 >= |s| ==> Interpolate(s, h) == s[h.Floor]
  {
    var lo := h.Floor;
    if lo + 1 < |s| {
      assert s[lo] <= s[lo + 1];
      LerpMonotone(s[lo], s[lo + 1], h - lo as real, h - lo as real);
    }
  }

  /** Interpolation between order statistics never decreases as the virtual index grows. */
  lemma InterpolateMonotone(s: seq<real>, h1: real, h2: real)
    requires Sorted(s) && |s| > 0
    requires 0.0 <= h1 <= h2 <= (|s| - 1) as real
    ensures Interpolate(s, h1) <= Interpolate(s, h2)
  {
    var lo1, lo2 := h1.Floor, h2.Floor;
    assert lo1 <= lo2;
    InterpolateBetween(s, h1);
    InterpolateBetween(s, h2);
    if lo1 == lo2 {
      if lo1 + 1 < |s| {
        assert s[lo1] <= s[lo1 + 1];
        LerpMonotone(s[lo1], s[lo1 + 1], h1 - lo1 as real, h2 - lo1 as real);
      }
    } else {
      assert lo1 + 1 <= lo2;
      assert s[lo1 + 1] <= s[lo2];
    }
  }

  /** Interpolating among ascending values stays between the first and the last, and meets them at the ends. */
  lemma InterpolateEnds(s: seq<real>, h: real)
    requires Sorted(s) && |s| > 0 && 0.0 <= h <= (|s| - 1) as real
    ensures s[0] <= Interpolate(s, h) <= s[|s| - 1]
    ensures h == 0.0 ==> Interpolate(s, h) == s[0]
    ensures h == (|s| - 1) as real ==> Interpolate(s, h) == s[|s| - 1]
  {
    var n := |s|;
    InterpolateMonotone(s, 0.0, h);
    InterpolateMonotone(s, h, (n - 1) as real);
    InterpolateAtPosition(s, 0);
    InterpolateAtPosition(s, n - 1);
  }

  /** Quantiles are ordered like their levels. */
  lemma QuantileMonotone(xs: seq<real>, q1: real, q2: real)
    requires |xs| > 0 && 0.0 <= q1 <= q2 <= 1.0
    ensures Quantile(xs, q1) <= Quantile(xs, q2)
  {
    VirtualIndexMonotone(|xs|, q1, q2);
    InterpolateMonotone(Sort(xs), VirtualIndex(|xs|, q1), VirtualIndex(|xs|, q2));
  }

  /** The median is the quantile at level one half. */
  lemma MedianIsHalfQuantile(xs: seq<real>)
    requires |xs| > 0
    ensures Median(xs) == Quantile(xs, 0.5)
  {
    var s := Sort(xs);
    var n := |xs|;
    var m := n / 2;
    var h := VirtualIndex(n, 0.5);
    HalfIndex(n);
    if n % 2 == 1 {
      InterpolateAtPosition(s, m);
    } else {
      InterpolateHalfway(s, m - 1);
    }
  }

  lemma InterpolateAtPosition(s: seq<real>, k: nat)
    requires k < |s|
    ensures Interpolate(s, k as real) == s[k]
  {
    assert (k as real).Floor == k;
  }

  lemma InterpolateHalfway(s: seq<real>, k: nat)
    requires k + 1 < |s|
    ensures Interpolate(s, k as real + 0.5) == (s[k] + s[k + 1]) / 2.0
  {
    assert (k as real + 0.5).Floor == k;
  }

  /** The virtual index at level one half: the middle position, or halfway between the two middle ones. */
  lemma HalfIndex(n: nat)
    requires n > 0
    ensures n % 2 == 1 ==> VirtualIndex(n, 0.5) == (n / 2) as real
    ensures n % 2 == 0 ==> n / 2 >= 1 && VirtualIndex(n, 0.5) == (n / 2 - 1) as real + 0.5
  {
    var m := n / 2;
    if n % 2 == 1 {
      assert (n - 1) as real == 2.0 * m as real;
    } else {
      assert (n - 1) as real == 2.0 * (m - 1) as real + 1.0;
    }
  }

  /** Ascending order: at level 1/4, 1/2 and 3/4 the quartiles and median sit between min and max. */
  lemma QuartilesOrdered(xs: seq<real>)
    requires |xs| > 0
    ensures Min(xs) <= Quantile(xs, 0.25) <= Median(xs) <= Quantile(xs, 0.75) <= Max(xs)
  {
    QuantileMonotone(xs, 0.25, 0.5);
    QuantileMonotone(xs, 0.5, 0.75);
    MedianIsHalfQuantile(xs);
  }

  /** A sequence whose elements all equal `c`. */
  predicate AllEqual(xs: seq<real>, c: real) {
    forall i :: 0 <= i < |xs| ==> xs[i] == c
  }

  lemma {:induction false} SumConstant(xs: seq<real>, c: real)
    requires AllEqual(xs, c)
    ensures Sum(xs) == |xs| as real * c
  {
    if |xs| > 0 {
      SumConstant(xs[1..], c);
    }
  }

  lemma {:induction false} SumSqConstant(xs: seq<real>, c: real)
    requires AllEqual(xs, c)
    ensures SumSq(xs, c) == 0.0
  {
    if |xs| > 0 {
      SumSqConstant(xs[1..], c);
    }
  }

  /** A constant vector has that constant as every location statistic, and no spread. */
  lemma ConstantSummary(xs: seq<real>, c: real)
    requires |xs| > 0 && AllEqual(xs, c)
    ensures Mean(xs) == c
    ensures Median(xs) == c
    ensures Quantile(xs, 0.25) == c && Quantile(xs, 0.75) == c
    ensures PopVariance(xs) == 0.0
  {
    ConstantMoments(xs, c);
    ConstantEnds(xs, c);
    QuartilesOrdered(xs);
  }

  lemma ConstantMoments(xs: seq<real>, c: real)
    requires |xs| > 0 && AllEqual(xs, c)
    ensures Mean(xs) == c && PopVariance(xs) == 0.0
  {
    SumConstant(xs, c);
    assert Mean(xs) == c;
    SumSqConstant(xs, c);
  }

  lemma ConstantEnds(xs: seq<real>, c: real)
    requires |xs| > 0 && AllEqual(xs, c)
    ensures Min(xs) == c && Max(xs) == c
  {
    assert Min(xs) in xs && Max(xs) in xs;
  }

  /** Sorting an already ascending sequence returns it unchanged. */
  lemma {:induction false} SortSorted(xs: seq<real>)
    requires Sorted(xs)
    ensures Sort(xs) == xs
  {
    if |xs| > 0 {
      assert Sorted(xs[1..]);
      SortSorted(xs[1..]);
      var rest := xs[1..];
      if |rest| > 0 {
        assert xs[0] <= rest[0];
      }
      assert [xs[0]] + rest == xs;
    }
  }
}

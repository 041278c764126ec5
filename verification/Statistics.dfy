/** The statistics the timing programs print, over any samples: minimum, maximum, mean, deviation and
    percentile, with exact integers and reals. */
module Statistics {
  import opened Common
  import opened ClockTime
  import opened Periodic

  const INT64_MAX: int := 0x7FFF_FFFF_FFFF_FFFF
  const INT64_MIN: int := -0x8000_0000_0000_0000

  function Sum(s: seq<int>): int
  {
    if s == [] then 0 else Sum(s[..|s| - 1]) + s[|s| - 1]
  }

  predicate IsMin(s: seq<int>, m: int) { m in s && forall x :: x in s ==> m <= x }

  predicate IsMax(s: seq<int>, m: int) { m in s && forall x :: x in s ==> x <= m }

  function Mean(s: seq<int>): real
    requires s != []
  {
    Sum(s) as real / |s| as real
  }

  function Square(x: real): real { x * x }

  /** Sum of squared distances from a. */
  function SquaredDev(s: seq<int>, a: real): real
  {
    if s == [] then 0.0 else SquaredDev(s[..|s| - 1], a) + Square(s[|s| - 1] as real - a)
  }

  function Variance(s: seq<int>): real
    requires s != []
  {
    SquaredDev(s, Mean(s)) / |s| as real
  }

  function SumOfSquares(s: seq<int>): int
  {
    if s == [] then 0 else SumOfSquares(s[..|s| - 1]) + s[|s| - 1] * s[|s| - 1]
  }

  // ------------------------------------------------------------------ loops

  lemma ExtremeFirst(x: int)
    ensures IsMin([x], x) && IsMax([x], x)
  {
  }

  lemma ExtremeStep(s: seq<int>, x: int, min: int, max: int)
    requires IsMin(s, min) && IsMax(s, max)
    ensures IsMin(s + [x], if x < min then x else min)
    ensures IsMax(s + [x], if x > max then x else max)
  {
  }

  lemma SumAppend(s: seq<int>, x: int)
    ensures Sum(s + [x]) == Sum(s) + x
  {
    assert (s + [x])[..|s|] == s;
  }

  /** The first statistics loop of calctime2, which starts from the extreme int64 values. */
  method MinMaxSum(deltas: array<int>) returns (min: int, max: int, sum: int)
    requires forall i :: 0 <= i < deltas.Length ==> INT64_MIN <= deltas[i] <= INT64_MAX
    ensures deltas.Length > 0 ==> IsMin(deltas[..], min) && IsMax(deltas[..], max)
    ensures deltas.Length == 0 ==> min == INT64_MAX && max == INT64_MIN
    ensures sum == Sum(deltas[..])
  {
    hide IsMin, IsMax;
    min, max, sum := INT64_MAX, INT64_MIN, 0;
    for i := 0 to deltas.Length
      invariant sum == Sum(deltas[..i])
      invariant i == 0 ==> min == INT64_MAX && max == INT64_MIN
      invariant i > 0 ==> IsMin(deltas[..i], min) && IsMax(deltas[..i], max)
    {
      SumAppend(deltas[..i], deltas[i]);
      ExtremeFirst(deltas[i]);
      if i > 0 {
        ExtremeStep(deltas[..i], deltas[i], min, max);
      }
      assert deltas[..i + 1] == deltas[..i] + [deltas[i]];
      assert i == 0 ==> deltas[..i + 1] == [deltas[i]];
      if deltas[i] < min {
        min := deltas[i];
      }
      if deltas[i] > max {
        max := deltas[i];
      }
      sum := sum + deltas[i];
    }
    assert deltas[..] == deltas[..deltas.Length];
  }

  /** The second pass: the variance around the mean of the first. */
  method VarianceOf(deltas: array<int>, avg: real) returns (v: real)
    requires deltas.Length > 0 && avg == Mean(deltas[..])
    ensures v == Variance(deltas[..])
    ensures var n := deltas.Length as real;
      && n * avg == Sum(deltas[..]) as real
      && n * n * v == n * SumOfSquares(deltas[..]) as real - Sum(deltas[..]) as real * Sum(deltas[..]) as real
  {
    hide Variance, Mean, Sum, SumOfSquares, Square;
    var sumSqDiff := 0.0;
    for i := 0 to deltas.Length
      invariant sumSqDiff == SquaredDev(deltas[..i], avg)
    {
      sumSqDiff := sumSqDiff + Square(deltas[i] as real - avg);
      assert deltas[..i + 1][..i] == deltas[..i];
    }
    assert deltas[..] == deltas[..deltas.Length];
    v := sumSqDiff / deltas.Length as real;
    VarianceFromSum(deltas[..], sumSqDiff);
    VarianceBySums(deltas[..]);
  }

  lemma VarianceFromSum(s: seq<int>, sum: real)
    requires s != [] && sum == SquaredDev(s, Mean(s))
    ensures sum / |s| as real == Variance(s)
  {
  }

  lemma SquareToReal(x: int)
    ensures (x * x) as real == x as real * x as real
  {
  }

  /** The squared distances from a, by the sums of the samples and of their squares. */
  lemma {:induction false} SquaredDevBySums(s: seq<int>, a: real)
    ensures SquaredDev(s, a) == SumOfSquares(s) as real - 2.0 * (a * Sum(s) as real) + |s| as real * (a * a)
  {
    if s == [] {
    } else {
      hide Square;
      var t, x := s[..|s| - 1], s[|s| - 1];
      SquaredDevBySums(t, a);
      SquareExpansion(x as real, a);
      SquareToReal(x);
      assert a * (Sum(t) + x) as real == a * Sum(t) as real + a * x as real;
      assert (|t| as real + 1.0) * (a * a) == |t| as real * (a * a) + a * a;
    }
  }

  /** The variance is the mean of the squares less the square of the mean. */
  lemma VarianceBySums(s: seq<int>)
    requires s != []
    ensures var n := |s| as real;
      && n * Mean(s) == Sum(s) as real
      && n * n * Variance(s) == n * SumOfSquares(s) as real - Sum(s) as real * Sum(s) as real
  {
    hide SquaredDev, Sum, SumOfSquares;
    var n, a, v := |s| as real, Mean(s), Variance(s);
    SquaredDevBySums(s, a);
    ClearDenominators(n, a, Sum(s) as real, SumOfSquares(s) as real);
    assert n * v == SquaredDev(s, a);
    assert n * n * v == n * (n * v);
  }

  lemma ClearDenominators(n: real, a: real, sum: real, squares: real)
    requires n * a == sum
    ensures n * (squares - 2.0 * (a * sum) + n * (a * a)) == n * squares - sum * sum
  {
    assert n * (a * sum) == sum * sum;
    assert n * (n * (a * a)) == (n * a) * (n * a);
  }

  // ------------------------------------------------------------------ bounds

  lemma {:induction false} SumBounds(s: seq<int>, lo: int, hi: int)
    requires forall x :: x in s ==> lo <= x <= hi
    ensures |s| * lo <= Sum(s) <= |s| * hi
  {
    if s == [] {
    } else {
      var t, x := s[..|s| - 1], s[|s| - 1];
      assert x in s && forall y :: y in t ==> y in s;
      SumBounds(t, lo, hi);
      OneMore(|t|, lo);
      OneMore(|t|, hi);
    }
  }

  lemma ProductToReal(n: nat, k: int)
    ensures (n * k) as real == n as real * k as real
  {
  }

  lemma PositiveProduct(x: real, n: real)
    requires n > 0.0
    ensures x > 0.0 ==> x * n > 0.0
  {
  }

  lemma QuotientBounds(sum: real, n: real, lo: real, hi: real)
    requires n > 0.0 && n * lo <= sum <= n * hi
    ensures lo <= sum / n <= hi
  {
    var q := sum / n;
    assert q * n == sum;
    PositiveProduct(lo - q, n);
    PositiveProduct(q - hi, n);
    assert (lo - q) * n == n * lo - q * n && (q - hi) * n == q * n - n * hi;
  }

  /** The mean lies between minimum and maximum. */
  lemma MeanWithinExtremes(s: seq<int>, min: int, max: int)
    requires IsMin(s, min) && IsMax(s, max)
    ensures s != [] && min as real <= Mean(s) <= max as real
  {
    hide Sum;
    SumBounds(s, min, max);
    ProductToReal(|s|, min);
    ProductToReal(|s|, max);
    QuotientBounds(Sum(s) as real, |s| as real, min as real, max as real);
  }

  lemma ProductNonNegative(x: real, y: real)
    requires x >= 0.0 && y >= 0.0
    ensures x * y >= 0.0
  {
  }

  lemma SquareExpansion(x: real, a: real)
    ensures Square(x - a) == x * x - 2.0 * (a * x) + a * a
  {
    assert (x - a) * (x - a) == x * (x - a) - a * (x - a);
  }

  lemma GapExpansion(x: real, lo: real, hi: real)
    ensures (hi - x) * (x - lo) == hi * x - hi * lo - x * x + lo * x
  {
    assert (hi - x) * (x - lo) == hi * (x - lo) - x * (x - lo);
  }

  /** One sample's share of the bound on the squared deviations. */
  function Share(x: real, a: real, c: real, d: real): real { c + (x - a) * d }

  /** The bound for n samples of the given sum. */
  function Bound(n: real, sum: real, a: real, c: real, d: real): real { n * c + (sum - n * a) * d }

  lemma SquareWithinShare(x: real, a: real, lo: real, hi: real)
    requires lo <= x <= hi
    ensures Square(x - a) <= Share(x, a, (hi - a) * (a - lo), hi + lo - 2.0 * a)
  {
    hide Square;
    ProductNonNegative(hi - x, x - lo);
    SquareExpansion(x, a);
    GapExpansion(x, lo, hi);
    GapExpansion(a, lo, hi);
    assert (x - a) * (hi + lo - 2.0 * a) == hi * x + lo * x - 2.0 * (a * x) - hi * a - lo * a + 2.0 * (a * a);
  }

  lemma BoundStep(n: real, sum: real, x: real, a: real, c: real, d: real)
    ensures Bound(n + 1.0, sum + x, a, c, d) == Bound(n, sum, a, c, d) + Share(x, a, c, d)
  {
    assert (n + 1.0) * c == n * c + c;
    assert (n + 1.0) * a == n * a + a;
    assert ((sum + x) - (n * a + a)) * d == (sum - n * a) * d + (x - a) * d;
  }

  lemma {:induction false} SquaredDevBound(s: seq<int>, a: real, lo: real, hi: real)
    requires forall x :: x in s ==> lo <= x as real <= hi
    ensures SquaredDev(s, a) <= Bound(|s| as real, Sum(s) as real, a, (hi - a) * (a - lo), hi + lo - 2.0 * a)
  {
    var c, d := (hi - a) * (a - lo), hi + lo - 2.0 * a;
    if s == [] {
      assert Bound(0.0, 0.0, a, c, d) == 0.0;
    } else {
      hide Square, Share, Bound;
      var t, x := s[..|s| - 1], s[|s| - 1] as real;
      assert s[|s| - 1] in s && forall y :: y in t ==> y in s;
      SquaredDevBound(t, a, lo, hi);
      SquareWithinShare(x, a, lo, hi);
      BoundStep(|t| as real, Sum(t) as real, x, a, c, d);
    }
  }

  lemma BoundAtMean(n: real, sum: real, c: real, d: real)
    requires n > 0.0
    ensures Bound(n, sum, sum / n, c, d) == n * c
  {
    assert n * (sum / n) == sum;
    assert (sum - sum) * d == 0.0;
  }

  /** Whatever the samples, the variance is at most (max - mean)(mean - min), and not negative. */
  lemma VarianceWithinExtremes(s: seq<int>, min: int, max: int)
    requires IsMin(s, min) && IsMax(s, max)
    ensures s != [] && 0.0 <= Variance(s) <= (max as real - Mean(s)) * (Mean(s) - min as real)
  {
    hide SquaredDev, Bound;
    var n, a, lo, hi := |s| as real, Mean(s), min as real, max as real;
    var c, d := (hi - a) * (a - lo), hi + lo - 2.0 * a;
    SquaredDevBound(s, a, lo, hi);
    SquaredDevNonNegative(s, a);
    BoundAtMean(n, Sum(s) as real, c, d);
    QuotientBounds(SquaredDev(s, a), n, 0.0, c);
  }

  lemma {:induction false} SquaredDevNonNegative(s: seq<int>, a: real)
    ensures SquaredDev(s, a) >= 0.0
  {
    if s == [] {
    } else {
      SquaredDevNonNegative(s[..|s| - 1], a);
    }
  }

  // ------------------------------------------------------------------- shift

  function Shifted(s: seq<int>, p: int): (t: seq<int>)
    ensures |t| == |s| && forall i :: 0 <= i < |s| ==> t[i] == s[i] + p
  {
    if s == [] then [] else Shifted(s[..|s| - 1], p) + [s[|s| - 1] + p]
  }

  lemma OneMore(n: nat, p: int)
    ensures (n + 1) * p == n * p + p
  {
  }

  lemma {:induction false} ShiftSum(s: seq<int>, p: int)
    ensures Sum(Shifted(s, p)) == Sum(s) + |s| * p
  {
    if s == [] {
    } else {
      var t := s[..|s| - 1];
      ShiftSum(t, p);
      assert Shifted(s, p)[..|s| - 1] == Shifted(t, p);
      OneMore(|t|, p);
    }
  }

  lemma {:induction false} ShiftSquaredDev(s: seq<int>, p: int, a: real)
    ensures SquaredDev(Shifted(s, p), a + p as real) == SquaredDev(s, a)
  {
    if s == [] {
    } else {
      ShiftSquaredDev(s[..|s| - 1], p, a);
      assert Shifted(s, p)[..|s| - 1] == Shifted(s[..|s| - 1], p);
    }
  }

  lemma AddToQuotient(sum: real, n: real, p: real)
    requires n > 0.0
    ensures (sum + n * p) / n == sum / n + p
  {
    var q := sum / n;
    assert q * n == sum;
    assert (q + p) * n == sum + n * p;
  }

  lemma ShiftExtremes(s: seq<int>, p: int, min: int, max: int)
    requires IsMin(s, min) && IsMax(s, max)
    ensures IsMin(Shifted(s, p), min + p) && IsMax(Shifted(s, p), max + p)
  {
    hide Shifted;
    var t := Shifted(s, p);
    var i :| 0 <= i < |s| && s[i] == min;
    var j :| 0 <= j < |s| && s[j] == max;
    assert t[i] == min + p && t[j] == max + p;
    forall y | y in t
      ensures min + p <= y <= max + p
    {
      var k :| 0 <= k < |t| && t[k] == y;
      assert s[k] in s;
    }
  }

  lemma ShiftMean(s: seq<int>, p: int)
    requires s != []
    ensures Shifted(s, p) != [] && Mean(Shifted(s, p)) == Mean(s) + p as real
  {
    hide Sum, Shifted;
    ShiftSum(s, p);
    ProductToReal(|s|, p);
    AddToQuotient(Sum(s) as real, |s| as real, p as real);
  }

  /** Adding a constant to every sample shifts minimum, mean and maximum by it and leaves the deviation. */
  lemma ShiftMovesMeanOnly(s: seq<int>, p: int, min: int, max: int)
    requires IsMin(s, min) && IsMax(s, max)
    ensures s != [] && Shifted(s, p) != []
    ensures IsMin(Shifted(s, p), min + p) && IsMax(Shifted(s, p), max + p)
    ensures Mean(Shifted(s, p)) == Mean(s) + p as real
    ensures Variance(Shifted(s, p)) == Variance(s)
  {
    hide Sum, Shifted, SquaredDev, Mean;
    ShiftExtremes(s, p, min, max);
    ShiftMean(s, p);
    ShiftSquaredDev(s, p, Mean(s));
  }

  /** On the same wakeups, what calctime2 reports is what the jitter program reports moved by one
      period, and both see the same deviation. */
  lemma SamplersAgree(e: Env, n: nat)
    requires Covers(e, n) && n > 0
    ensures PeriodSamples(e, n) == Shifted(JitterSamples(e, n), e.period)
    ensures Mean(PeriodSamples(e, n)) == Mean(JitterSamples(e, n)) + e.period as real
    ensures Variance(PeriodSamples(e, n)) == Variance(JitterSamples(e, n))
  {
    hide Mean, Variance, Shifted, Lateness, IsMin, IsMax;
    assert PeriodSamples(e, n) == Shifted(JitterSamples(e, n), e.period);
    var min, max := Extremes(JitterSamples(e, n));
    ShiftMovesMeanOnly(JitterSamples(e, n), e.period, min, max);
  }

  lemma {:induction false} Extremes(s: seq<int>) returns (min: int, max: int)
    requires s != []
    ensures IsMin(s, min) && IsMax(s, max)
  {
    min, max := s[0], s[0];
    if |s| == 1 {
    } else {
      min, max := Extremes(s[1..]);
      assert forall x :: x in s <==> x == s[0] || x in s[1..];
      if s[0] < min { min := s[0]; }
      if s[0] > max { max := s[0]; }
    }
  }
}

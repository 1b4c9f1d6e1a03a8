/** The Newey-West variance of a sample mean: Bartlett-weighted autocovariances. */
module NeweyWest {
  import opened Sums
  import opened Means
  import opened Wrappers

  /** The series, zero outside its index range. */
  ghost function Pad(c: seq<real>, j: int): real {
    if 0 <= j < |c| then c[j] else 0.0
  }

  /** The product of two copies of the padded series, delayed by a and by b. */
  ghost function Product(c: seq<real>, a: int, b: int): int -> real {
    j => Times(Pad(c, j - b), Pad(c, j - a))
  }

  /** The unnormalised autocovariance at a lag, over the pairs that exist. */
  ghost function Autocov(c: seq<real>, lag: int): real {
    RangeSum(lag, |c|, Product(c, 0, lag))
  }

  lemma TimesZero(x: real, y: real)
    requires x == 0.0 || y == 0.0
    ensures Times(x, y) == 0.0
  {
  }

  lemma TailsVanish(c: seq<real>, a: nat, b: nat)
    ensures forall j :: j < b || |c| + a <= j ==> Product(c, a, b)(j) == 0.0
  {
    forall j | j < b || |c| + a <= j ensures Product(c, a, b)(j) == 0.0 {
      TimesZero(Pad(c, j - b), Pad(c, j - a));
    }
  }

  lemma {:induction false} ShiftProduct(c: seq<real>, lag: int, d: int, lo: int, hi: int)
    ensures RangeSum(lo, hi, Product(c, 0, lag)) == RangeSum(lo + d, hi + d, Product(c, d, d + lag))
    decreases hi - lo
  {
    hide Times;
    if lo < hi {
      ShiftProduct(c, lag, d, lo, hi - 1);
      assert Product(c, d, d + lag)(hi + d - 1) == Product(c, 0, lag)(hi - 1);
    }
  }

  /** Delaying both copies alike changes nothing once the range is long enough. */
  lemma DelayedAutocov(c: seq<real>, a: nat, b: nat, hi: int)
    requires a <= b && |c| + b <= hi && b - a <= |c|
    ensures RangeSum(0, hi, Product(c, a, b)) == Autocov(c, b - a)
  {
    hide Times, RangeSum, Pad;
    TailsVanish(c, a, b);
    RangeSumTrim(0, b, |c| + a, hi, Product(c, a, b));
    ShiftProduct(c, b - a, a, b - a, |c|);
  }

  /** The sum of the window of L + 1 padded values that ends at j. */
  ghost function Window(c: seq<real>, L: int, j: int): real
    decreases L + 1
  {
    if L < 0 then 0.0 else Window(c, L - 1, j) + Pad(c, j - L)
  }

  ghost function WindowTimes(c: seq<real>, k: int, L: int): int -> real {
    j => Times(Pad(c, j - L), Window(c, k, j))
  }

  ghost function WindowSquare(c: seq<real>, L: int): int -> real {
    j => Times(Window(c, L, j), Window(c, L, j))
  }

  /** The sum of the autocovariances at lags a, ..., b. */
  ghost function AutocovSum(c: seq<real>, a: int, b: int): real
    decreases b - a
  {
    if b < a then 0.0 else Autocov(c, a) + AutocovSum(c, a + 1, b)
  }

  /** The Bartlett sum with integer weights: m - l for every lag l in 1, ..., L. */
  ghost function BartlettSum(c: seq<real>, m: int, L: int): real
    decreases L
  {
    if L <= 0 then 0.0 else BartlettSum(c, m, L - 1) + Times(Autocov(c, L), (m - L) as real)
  }

  lemma WindowTimesStep(c: seq<real>, k: nat, L: nat, hi: int)
    ensures RangeSum(0, hi, WindowTimes(c, k, L))
         == RangeSum(0, hi, WindowTimes(c, k - 1, L)) + RangeSum(0, hi, Product(c, k, L))
  {
    hide Times;
    forall j | 0 <= j < hi
      ensures WindowTimes(c, k, L)(j) == WindowTimes(c, k - 1, L)(j) + 1.0 * Product(c, k, L)(j)
    {
      Distribute(Pad(c, j - L), Window(c, k - 1, j), Pad(c, j - k));
    }
    RangeSumLinear(0, hi, WindowTimes(c, k - 1, L), 1.0, Product(c, k, L), WindowTimes(c, k, L));
  }

  lemma EmptyWindows(c: seq<real>, L: int, hi: int)
    ensures RangeSum(0, hi, WindowTimes(c, -1, L)) == 0.0
  {
    RangeSumZero(0, hi, WindowTimes(c, -1, L));
  }

  /** The partial windows against the newest value collect one autocovariance per lag. */
  lemma {:induction false} WindowTimesSum(c: seq<real>, k: int, L: nat, hi: int)
    requires -1 <= k < L <= |c| && |c| + L <= hi
    ensures RangeSum(0, hi, WindowTimes(c, k, L)) == AutocovSum(c, L - k, L)
    decreases k + 1
  {
    hide Times, RangeSum, Autocov, WindowTimes, Product;
    if k == -1 {
      assert RangeSum(0, hi, WindowTimes(c, k, L)) == 0.0 by { EmptyWindows(c, L, hi); }
    } else {
      WindowTimesSum(c, k - 1, L, hi);
      WindowTimesStep(c, k, L, hi);
      DelayedAutocov(c, k, L, hi);
    }
  }

  /** Raising every Bartlett weight by one adds each autocovariance once. */
  lemma {:induction false} BartlettRaise(c: seq<real>, m: int, L: nat)
    ensures BartlettSum(c, m + 1, L) == BartlettSum(c, m, L) + AutocovSum(c, 1, L)
  {
    if L > 0 {
      BartlettRaise(c, m, L - 1);
      AutocovSumLast(c, 1, L);
      assert (m + 1 - L) as real == (m - L) as real + 1.0;
      Distribute(Autocov(c, L), (m - L) as real, 1.0);
    }
  }

  lemma {:induction false} AutocovSumLast(c: seq<real>, a: int, b: int)
    requires a <= b
    ensures AutocovSum(c, a, b) == AutocovSum(c, a, b - 1) + Autocov(c, b)
    decreases b - a
  {
    if a < b {
      AutocovSumLast(c, a + 1, b);
    }
  }

  lemma SquareOfSum(x: real, y: real)
    ensures Times(x + y, x + y) == Times(x, x) + 2.0 * Times(y, x) + Times(y, y)
  {
  }

  lemma Weights(g0: real, n: real, gL: real)
    ensures Times(g0, n + 1.0) == Times(g0, n) + g0 && Times(g0, 1.0) == g0 && Times(gL, 0.0) == 0.0
  {
  }

  lemma SingleWindows(c: seq<real>, hi: int)
    ensures RangeSum(0, hi, WindowSquare(c, 0)) == RangeSum(0, hi, Product(c, 0, 0))
  {
    hide Times;
    forall j | 0 <= j < hi ensures WindowSquare(c, 0)(j) == Product(c, 0, 0)(j) {
      assert Window(c, -1, j) == 0.0;
    }
    RangeSumSame(0, hi, WindowSquare(c, 0), Product(c, 0, 0));
  }

  /** A window one longer: its square adds a cross term and the square of the new value. */
  lemma WindowSquareStep(c: seq<real>, L: nat, hi: int)
    requires L > 0
    ensures RangeSum(0, hi, WindowSquare(c, L))
         == RangeSum(0, hi, WindowSquare(c, L - 1)) + 2.0 * RangeSum(0, hi, WindowTimes(c, L - 1, L))
            + RangeSum(0, hi, Product(c, L, L))
  {
    var cross := j => 2.0 * WindowTimes(c, L - 1, L)(j) + Product(c, L, L)(j);
    RangeSumLinear(0, hi, Product(c, L, L), 2.0, WindowTimes(c, L - 1, L), cross);
    forall j | 0 <= j < hi
      ensures WindowSquare(c, L)(j) == WindowSquare(c, L - 1)(j) + 1.0 * cross(j)
    {
      SquareOfSum(Window(c, L - 1, j), Pad(c, j - L));
    }
    RangeSumLinear(0, hi, WindowSquare(c, L - 1), 1.0, cross, WindowSquare(c, L));
  }

  /** The sum of squared windows is the Bartlett-weighted sum of autocovariances. */
  lemma {:induction false} SumOfSquares(c: seq<real>, L: nat, hi: int)
    requires L <= |c| && |c| + L <= hi
    ensures RangeSum(0, hi, WindowSquare(c, L))
         == Times(Autocov(c, 0), (L + 1) as real) + 2.0 * BartlettSum(c, L + 1, L)
    decreases L
  {
    hide Times, RangeSum, Autocov, WindowSquare, WindowTimes, Product;
    assert RangeSum(0, hi, Product(c, L, L)) == Autocov(c, 0) by { DelayedAutocov(c, L, L, hi); }
    Weights(Autocov(c, 0), L as real, Autocov(c, L));
    if L == 0 {
      SingleWindows(c, hi);
    } else {
      SumOfSquares(c, L - 1, hi);
      WindowTimesSum(c, L - 1, L, hi);
      WindowSquareStep(c, L, hi);
      BartlettRaise(c, L, L);
    }
  }

  /** All windows vanish only when every value does. */
  lemma {:induction false} ZeroWindows(c: seq<real>, L: nat, t: nat)
    requires forall j :: 0 <= j < |c| ==> Window(c, L, j) == 0.0
    requires t <= |c|
    ensures forall i :: 0 <= i < t ==> c[i] == 0.0
    decreases t
  {
    if t > 0 {
      ZeroWindows(c, L, t - 1);
      WindowOfZeros(c, L, t - 1);
    }
  }

  lemma {:induction false} WindowOfZeros(c: seq<real>, L: nat, t: nat)
    requires t < |c| && forall i :: 0 <= i < t ==> c[i] == 0.0
    ensures Window(c, L, t) == c[t]
    decreases L
  {
    if L > 0 {
      WindowOfZeros(c, L - 1, t);
    } else {
      assert Window(c, -1, t) == 0.0;
    }
  }

  lemma ZeroVariance(c: seq<real>, L: nat)
    ensures RangeSum(0, |c| + L, WindowSquare(c, L)) >= 0.0
    ensures RangeSum(0, |c| + L, WindowSquare(c, L)) == 0.0 <==> forall i :: 0 <= i < |c| ==> c[i] == 0.0
  {
    RangeSumNonNegative(0, |c| + L, WindowSquare(c, L));
    if RangeSum(0, |c| + L, WindowSquare(c, L)) == 0.0 {
      forall j | 0 <= j < |c| ensures Window(c, L, j) == 0.0 {
        assert WindowSquare(c, L)(j) == 0.0;
        Square(Window(c, L, j));
      }
      ZeroWindows(c, L, |c|);
    }
    if forall i :: 0 <= i < |c| ==> c[i] == 0.0 {
      forall j ensures Window(c, L, j) == 0.0 { AllZeroWindow(c, L, j); }
      RangeSumZero(0, |c| + L, WindowSquare(c, L));
    }
  }

  lemma {:induction false} AllZeroWindow(c: seq<real>, L: int, j: int)
    requires forall i :: 0 <= i < |c| ==> c[i] == 0.0
    ensures Window(c, L, j) == 0.0
    decreases L + 1
  {
    if L >= 0 {
      AllZeroWindow(c, L - 1, j);
    }
  }

  // ---------------------------------------------------------------- the estimator

  datatype MetricError = NegativeLags | TooFewObservations

  /** Truncation of the lag count at n - 1. */
  function EffectiveLags(n: nat, lags: nat): (L: nat)
    requires n >= 2
    ensures L <= lags && L <= n - 1 && (L == lags || L == n - 1)
  {
    if lags < n - 1 then lags else n - 1
  }

  method LaggedSum(c: seq<real>, lag: nat) returns (g: real)
    requires lag <= |c|
    ensures g == Autocov(c, lag)
  {
    g := 0.0;
    for t := lag to |c|
      invariant g == RangeSum(lag, t, Product(c, 0, lag))
    {
      g := g + c[t] * c[t - lag];
    }
  }

  lemma NoLags(c: seq<real>, m: int)
    ensures BartlettSum(c, m, 0) == 0.0
  {
  }

  lemma NextLag(c: seq<real>, m: int, lag: int)
    requires lag >= 1
    ensures BartlettSum(c, m, lag) == BartlettSum(c, m, lag - 1) + Times(Autocov(c, lag), m as real - lag as real)
  {
  }

  /** The term one lag adds, for the autocovariance g before it is divided by n. */
  function LagTerm(g: real, n: real, m: real, lag: real): real
    requires n > 0.0 && m > 0.0
  {
    var weight := 1.0 - lag / m;
    2.0 * weight * (g / n)
  }

  /** One Bartlett term, before and after clearing the denominators. */
  lemma BartlettTerm(s: real, g: real, n: real, m: real, l: real)
    requires n > 0.0 && m > 0.0
    ensures Times(s + LagTerm(g, n, m, l), Times(n, m)) == Times(s, Times(n, m)) + 2.0 * Times(g, m - l)
  {
    var w, h := 1.0 - l / m, g / n;
    assert w * m == m - l;
    assert h * n == g;
    assert (2.0 * w * h) * (n * m) == 2.0 * ((w * m) * (h * n));
  }

  lemma LagZero(g: real, n: real, m: real)
    requires n > 0.0
    ensures Times(g / n, Times(n, m)) == Times(g, m)
  {
    var h := g / n;
    assert h * n == g;
    assert h * (n * m) == (h * n) * m;
  }

  /** The accumulated sum g0 + 2 * sum of w_l * g_l, scaled by n * (L + 1). */
  method LongRunVariance(c: seq<real>, effective: nat) returns (s: real)
    requires effective < |c|
    ensures Times(s, Times(|c| as real, (effective + 1) as real))
         == RangeSum(0, |c| + effective, WindowSquare(c, effective))
  {
    hide Times, LagTerm, BartlettSum, RangeSum, WindowSquare, Autocov;
    var n, m := |c| as real, (effective + 1) as real;
    var g0 := LaggedSum(c, 0);
    s := g0 / n;
    assert Times(s, Times(n, m)) == Times(g0, m) + 2.0 * BartlettSum(c, effective + 1, 0) by {
      LagZero(g0, n, m);
      NoLags(c, effective + 1);
    }
    for lag := 1 to effective + 1
      invariant Times(s, Times(n, m)) == Times(g0, m) + 2.0 * BartlettSum(c, effective + 1, lag - 1)
    {
      var g := LaggedSum(c, lag);
      BartlettTerm(s, g, n, m, lag as real);
      NextLag(c, effective + 1, lag);
      s := s + LagTerm(g, n, m, lag as real);
    }
    SumOfSquares(c, effective, |c| + effective);
  }

  /** The variance of the mean: the value whose square root is the standard error.

      The Bartlett-weighted sum is, up to a positive scale, the sum of the squares of all
      zero-padded moving windows; so the square root is always defined, and the standard error
      is zero exactly for a constant series. */
  method NeweyWestVariance(values: seq<real>, lags: int) returns (r: Result<real, MetricError>)
    ensures lags < 0 ==> r == Failure(NegativeLags)
    ensures lags >= 0 && |values| < 2 ==> r == Failure(TooFewObservations)
    ensures lags >= 0 && |values| >= 2 ==> r.Success? && r.value >= 0.0
    ensures lags >= 0 && |values| >= 2 ==>
              forall L: nat :: L <= lags && L <= |values| - 1 && (L == lags || L == |values| - 1) ==>
                Times(Times(r.value, |values| as real), Times(|values| as real, (L + 1) as real))
                  == RangeSum(0, |values| + L, WindowSquare(Deviations(values), L))
    ensures lags == 0 && |values| >= 2 ==>
              Times(Times(r.value, |values| as real), |values| as real) == Sum(Squares(Deviations(values)))
    ensures lags >= 0 && |values| >= 2 ==>
              (r.value == 0.0 <==> Constant(values))
  {
    if lags < 0 {
      return Failure(NegativeLags);
    }
    var n := |values|;
    if n < 2 {
      return Failure(TooFewObservations);
    }
    hide Times, RangeSum, WindowSquare, Sum;
    var c := Deviations(values);
    var effective := EffectiveLags(n, lags);
    var s := LongRunVariance(c, effective);
    r := Success(s / n as real);
    Conclude(values, s, effective);
    if lags == 0 {
      TimesOne(n as real);
      WindowsOfOne(c, n);
    }
  }

  lemma TimesOne(x: real)
    ensures Times(x, 1.0) == x
  {
  }

  function Squares(c: seq<real>): (s: seq<real>)
    ensures |s| == |c|
  {
    seq(|c|, i requires 0 <= i < |c| => Times(c[i], c[i]))
  }

  /** Without lags the windows are the single values. */
  lemma {:induction false} WindowsOfOne(c: seq<real>, n: nat)
    requires n <= |c|
    ensures RangeSum(0, n, WindowSquare(c, 0)) == Sum(Squares(c)[..n])
    ensures Squares(c)[..|c|] == Squares(c)
  {
    if n > 0 {
      WindowsOfOne(c, n - 1);
      WindowIsSlice(c, 0, n - 1);
      SumOne(c[n - 1]);
      assert c[n - 1..n] == [c[n - 1]];
      assert Squares(c)[..n] == Squares(c)[..n - 1] + [Squares(c)[n - 1]];
      hide Sum;
      SumAppend(Squares(c)[..n - 1], Squares(c)[n - 1]);
    }
  }

  /** The index nearest to j of a series of n values. */
  function Clamp(j: int, n: nat): (k: nat)
    ensures k <= n
  {
    if j < 0 then 0 else if j > n then n else j
  }

  /** The window of length L + 1 that ends at j is the sum of the values it covers, at either end of the series too. */
  lemma {:induction false} WindowIsSlice(c: seq<real>, L: nat, j: nat)
    ensures Clamp(j - L, |c|) <= Clamp(j + 1, |c|)
    ensures Window(c, L, j) == Sum(c[Clamp(j - L, |c|)..Clamp(j + 1, |c|)])
    decreases L
  {
    var hi := Clamp(j + 1, |c|);
    if L == 0 {
      assert Window(c, -1, j) == 0.0;
      if j < |c| {
        assert c[j..j + 1] == [c[j]];
        SumOne(c[j]);
      }
    } else {
      WindowIsSlice(c, L - 1, j);
      if 0 <= j - L < |c| {
        assert c[j - L..hi] == [c[j - L]] + c[j - L + 1..hi];
        SumPrepend(c[j - L], c[j - L + 1..hi]);
      }
    }
  }

  lemma {:induction false} SumPrepend(x: real, s: seq<real>)
    ensures Sum([x] + s) == x + Sum(s)
    decreases |s|
  {
    if s == [] {
      SumOne(x);
      assert [x] + s == [x];
    } else {
      var n := |s| - 1;
      SumPrepend(x, s[..n]);
      assert [x] + s == ([x] + s[..n]) + [s[n]];
      SumAppend([x] + s[..n], s[n]);
    }
  }

  lemma ScaleSign(s: real, n: real, m: real)
    requires n > 0.0 && m > 0.0
    ensures Times(s / n, n) == s
    ensures Times(s, Times(n, m)) >= 0.0 ==> s / n >= 0.0
    ensures s / n == 0.0 <==> Times(s, Times(n, m)) == 0.0
  {
    var q := s / n;
    assert q * n == s;
    assert Times(n, m) > 0.0;
    if q < 0.0 {
      assert s < 0.0;
      assert s * Times(n, m) < 0.0;
    }
  }

  lemma Conclude(values: seq<real>, s: real, L: nat)
    requires |values| >= 2
    requires Times(s, Times(|values| as real, (L + 1) as real)) == RangeSum(0, |values| + L, WindowSquare(Deviations(values), L))
    ensures s / |values| as real >= 0.0
    ensures Times(Times(s / |values| as real, |values| as real), Times(|values| as real, (L + 1) as real))
         == RangeSum(0, |values| + L, WindowSquare(Deviations(values), L))
    ensures s / |values| as real == 0.0 <==> Constant(values)
  {
    hide RangeSum, WindowSquare, Times;
    ScaleSign(s, |values| as real, (L + 1) as real);
    ZeroVariance(Deviations(values), L);
    DeviationsVanish(values);
  }
}

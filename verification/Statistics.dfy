/** Correlations and tail statistics. */
module Statistics {
  import opened Sums
  import opened Means
  import opened Ordering
  import opened Wrappers
  import opened Ranks

  datatype StatError = LengthMismatch | TooFewPairs | ZeroVariance | BadAlpha | EmptySample

  function Products(a: seq<real>, b: seq<real>): (p: seq<real>)
    requires |a| == |b|
    ensures |p| == |a|
  {
    seq(|a|, i requires 0 <= i < |a| => Times(a[i], b[i]))
  }

  /** The numerator and the two sums of squares of a correlation: r = sxy / sqrt(sxx * syy). */
  datatype Correlation = Correlation(sxy: real, sxx: real, syy: real)

  function Pearson(x: seq<real>, y: seq<real>): Result<Correlation, StatError> {
    if |x| != |y| then Failure(LengthMismatch)
    else if |x| < 2 then Failure(TooFewPairs)
    else
      var dx, dy := Deviations(x), Deviations(y);
      var sxx, syy := Sum(Products(dx, dx)), Sum(Products(dy, dy));
      if sxx == 0.0 || syy == 0.0 then Failure(ZeroVariance)
      else Success(Correlation(Sum(Products(dx, dy)), sxx, syy))
  }

  lemma {:induction false} SquaresSum(a: seq<real>)
    ensures Sum(Products(a, a)) >= 0.0
    ensures Sum(Products(a, a)) == 0.0 <==> forall i :: 0 <= i < |a| ==> a[i] == 0.0
    decreases |a|
  {
    if a != [] {
      hide Times;
      var n := |a| - 1;
      SquaresSum(a[..n]);
      assert Products(a, a)[..n] == Products(a[..n], a[..n]);
      Square(a[n]);
    }
  }

  /** One step of the Cauchy-Schwarz inequality. */
  lemma CauchyStep(s: real, p: real, q: real, x: real, y: real)
    requires p >= 0.0 && q >= 0.0 && Times(s, s) <= Times(p, q)
    ensures Times(s + Times(x, y), s + Times(x, y)) <= Times(p + Times(x, x), q + Times(y, y))
  {
    CrossTerm(s, p, q, x, y);
    ExpandLeft(s, x, y);
    ExpandRight(p, q, x, y);
  }

  lemma ExpandLeft(s: real, x: real, y: real)
    ensures Times(s + Times(x, y), s + Times(x, y)) == Times(s, s) + 2.0 * Times(s, Times(x, y)) + Times(Times(x, x), Times(y, y))
  {
    var t := Times(x, y);
    assert Times(s + t, s + t) == Times(s, s) + 2.0 * Times(s, t) + Times(t, t);
    assert Times(t, t) == Times(Times(x, x), Times(y, y));
  }

  lemma ExpandRight(p: real, q: real, x: real, y: real)
    ensures Times(p + Times(x, x), q + Times(y, y))
         == Times(p, q) + Times(p, Times(y, y)) + Times(q, Times(x, x)) + Times(Times(x, x), Times(y, y))
  {
    var a, b := Times(x, x), Times(y, y);
    assert Times(p + a, q + b) == Times(p, q) + Times(p, b) + Times(q, a) + Times(a, b);
  }

  lemma CrossTerm(s: real, p: real, q: real, x: real, y: real)
    requires p >= 0.0 && q >= 0.0 && Times(s, s) <= Times(p, q)
    ensures 2.0 * Times(s, Times(x, y)) <= Times(p, Times(y, y)) + Times(q, Times(x, x))
  {
    var a, b := Times(x, x), Times(y, y);
    Square(x);
    Square(y);
    if p == 0.0 {
      Square(s);
      assert Times(p, q) == 0.0;
      assert s == 0.0;
      assert Times(s, Times(x, y)) == 0.0 && Times(p, b) == 0.0;
      NonNegative(q, a);
    } else {
      var gap := Times(p, b) + Times(q, a) - 2.0 * Times(s, Times(x, y));
      Square(Times(p, y) - Times(s, x));
      GapAsSquare(s, p, q, x, y);
      ScaledGap(s, p, q, a);
      SignThrough(gap, p);
    }
  }

  lemma ScaledGap(s: real, p: real, q: real, a: real)
    requires a >= 0.0 && Times(s, s) <= Times(p, q)
    ensures Times(Times(p, q), a) >= Times(Times(s, s), a)
  {
    NonNegative(Times(p, q) - Times(s, s), a);
    assert Times(Times(p, q) - Times(s, s), a) == Times(Times(p, q), a) - Times(Times(s, s), a);
  }

  /** p * gap, rearranged around (p*y - s*x)^2. */
  lemma GapAsSquare(s: real, p: real, q: real, x: real, y: real)
    ensures Times(Times(p, Times(y, y)) + Times(q, Times(x, x)) - 2.0 * Times(s, Times(x, y)), p)
         == Times(Times(p, y) - Times(s, x), Times(p, y) - Times(s, x))
            + Times(Times(p, q), Times(x, x)) - Times(Times(s, s), Times(x, x))
  {
    hide Times;
    ThreeTerms(Times(p, Times(y, y)), Times(q, Times(x, x)), Times(s, Times(x, y)), p);
    SquareOfDifference(Times(p, y), Times(s, x));
    Monomials(s, p, q, x, y);
  }

  lemma SquareOfDifference(u: real, v: real)
    ensures Times(u - v, u - v) == Times(u, u) - 2.0 * Times(u, v) + Times(v, v)
  {
  }

  lemma Monomials(s: real, p: real, q: real, x: real, y: real)
    ensures Times(Times(p, Times(y, y)), p) == Times(Times(p, y), Times(p, y))
    ensures Times(Times(s, Times(x, y)), p) == Times(Times(p, y), Times(s, x))
    ensures Times(Times(s, x), Times(s, x)) == Times(Times(s, s), Times(x, x))
    ensures Times(Times(q, Times(x, x)), p) == Times(Times(p, q), Times(x, x))
  {
  }

  lemma ThreeTerms(a: real, b: real, c: real, p: real)
    ensures Times(a + b - 2.0 * c, p) == Times(a, p) + Times(b, p) - 2.0 * Times(c, p)
  {
  }

  lemma SignThrough(gap: real, p: real)
    requires p > 0.0 && Times(gap, p) >= 0.0
    ensures gap >= 0.0
  {
    assert Times(-gap, p) == -Times(gap, p);
    if gap < 0.0 {
      ProductPositive(-gap, p);
    }
  }

  lemma {:induction false} CauchySchwarz(a: seq<real>, b: seq<real>)
    requires |a| == |b|
    ensures Times(Sum(Products(a, b)), Sum(Products(a, b))) <= Times(Sum(Products(a, a)), Sum(Products(b, b)))
    decreases |a|
  {
    hide Times;
    if a == [] {
      TimesByZero(0.0);
    } else {
      var n := |a| - 1;
      CauchySchwarz(a[..n], b[..n]);
      assert Products(a, b)[..n] == Products(a[..n], b[..n]);
      assert Products(a, a)[..n] == Products(a[..n], a[..n]);
      assert Products(b, b)[..n] == Products(b[..n], b[..n]);
      SquaresSum(a[..n]);
      SquaresSum(b[..n]);
      CauchyStep(Sum(Products(a[..n], b[..n])), Sum(Products(a[..n], a[..n])), Sum(Products(b[..n], b[..n])), a[n], b[n]);
    }
  }

  /** A correlation is defined exactly when neither series is constant, and lies between -1 and 1. */
  lemma PearsonBounded(x: seq<real>, y: seq<real>)
    requires |x| == |y| >= 2
    ensures Pearson(x, y).Success? <==> !Constant(x) && !Constant(y)
    ensures Pearson(x, y).Success? ==>
              var c := Pearson(x, y).value;
              c.sxx > 0.0 && c.syy > 0.0 && Times(c.sxy, c.sxy) <= Times(c.sxx, c.syy)
  {
    hide Times, Sum, Products;
    SquaresSum(Deviations(x));
    SquaresSum(Deviations(y));
    DeviationsVanish(x);
    DeviationsVanish(y);
    CauchySchwarz(Deviations(x), Deviations(y));
  }

  // ---------------------------------------------------------------- what a correlation measures

  lemma {:induction false} SumsOfDeviations(x: seq<real>, y: seq<real>, mx: real, my: real, dx: seq<real>, dy: seq<real>)
    requires |x| == |y| == |dx| == |dy|
    requires forall i :: 0 <= i < |x| ==> dx[i] == x[i] - mx && dy[i] == y[i] - my
    ensures Sum(Products(dx, dy))
            == Sum(Products(x, y)) - Times(mx, Sum(y)) - Times(my, Sum(x)) + Times(|x| as real, Times(mx, my))
    decreases |x|
  {
    if x == [] {
      TimesByZero(mx);
      TimesByZero(my);
      TimesByZero(Times(mx, my));
    } else {
      hide Times;
      var n := |x| - 1;
      SumsOfDeviations(x[..n], y[..n], mx, my, dx[..n], dy[..n]);
      assert Products(dx, dy)[..n] == Products(dx[..n], dy[..n]) && Products(x, y)[..n] == Products(x[..n], y[..n]);
      DeviationTerm(x[n], y[n], mx, my);
      Distribute(mx, Sum(y[..n]), y[n]);
      Distribute(my, Sum(x[..n]), x[n]);
      OneMoreTime(n as real, Times(mx, my));
    }
  }

  lemma DeviationTerm(x: real, y: real, mx: real, my: real)
    ensures Times(x - mx, y - my) == Times(x, y) - Times(mx, y) - Times(my, x) + Times(mx, my)
  {
  }

  lemma OneMoreTime(n: real, c: real)
    ensures Times(n + 1.0, c) == Times(n, c) + c
  {
  }

  /** The product of the differences of two observations, over all pairs of the first n. */
  function PairSum(x: seq<real>, y: seq<real>, n: nat): real
    requires n <= |x| == |y|
  {
    if n == 0 then 0.0 else PairSum(x, y, n - 1) + PairsWith(x, y, n - 1, n - 1)
  }

  /** Observation j against each of the first n. */
  function PairsWith(x: seq<real>, y: seq<real>, j: nat, n: nat): real
    requires n <= |x| == |y| && j < |x|
  {
    if n == 0 then 0.0 else PairsWith(x, y, j, n - 1) + Times(x[j] - x[n - 1], y[j] - y[n - 1])
  }

  lemma {:induction false} PairsWithSums(x: seq<real>, y: seq<real>, j: nat, n: nat)
    requires n <= |x| == |y| && j < |x|
    ensures PairsWith(x, y, j, n)
            == Sum(Products(x[..n], y[..n])) - Times(x[j], Sum(y[..n])) - Times(y[j], Sum(x[..n])) + Times(n as real, Times(x[j], y[j]))
  {
    if n == 0 {
      TimesByZero(x[j]);
      TimesByZero(y[j]);
      TimesByZero(Times(x[j], y[j]));
    } else {
      hide Times;
      PairsWithSums(x, y, j, n - 1);
      Prefix(x, y, n);
      PairTerm(x[j], y[j], x[n - 1], y[n - 1]);
      Distribute(x[j], Sum(y[..n - 1]), y[n - 1]);
      Distribute(y[j], Sum(x[..n - 1]), x[n - 1]);
      OneMoreTime((n - 1) as real, Times(x[j], y[j]));
    }
  }

  lemma PairTerm(xj: real, yj: real, x: real, y: real)
    ensures Times(xj - x, yj - y) == Times(x, y) - Times(xj, y) - Times(yj, x) + Times(xj, yj)
  {
  }

  lemma Prefix(x: seq<real>, y: seq<real>, n: nat)
    requires 0 < n <= |x| == |y|
    ensures Sum(x[..n]) == Sum(x[..n - 1]) + x[n - 1] && Sum(y[..n]) == Sum(y[..n - 1]) + y[n - 1]
    ensures Sum(Products(x[..n], y[..n])) == Sum(Products(x[..n - 1], y[..n - 1])) + Times(x[n - 1], y[n - 1])
  {
    assert x[..n][..n - 1] == x[..n - 1] && y[..n][..n - 1] == y[..n - 1];
    assert Products(x[..n], y[..n])[..n - 1] == Products(x[..n - 1], y[..n - 1]);
  }

  lemma {:induction false} PairSumIs(x: seq<real>, y: seq<real>, n: nat)
    requires n <= |x| == |y|
    ensures PairSum(x, y, n) == Times(n as real, Sum(Products(x[..n], y[..n]))) - Times(Sum(x[..n]), Sum(y[..n]))
  {
    hide Times, Sum, Products, PairsWith;
    if n == 0 {
      NothingPaired(x, y);
    } else {
      PairSumIs(x, y, n - 1);
      PairsWithSums(x, y, n - 1, n - 1);
      Prefix(x, y, n);
      PairStep((n - 1) as real, Sum(Products(x[..n - 1], y[..n - 1])), Sum(x[..n - 1]), Sum(y[..n - 1]), x[n - 1], y[n - 1]);
    }
  }

  lemma NothingPaired(x: seq<real>, y: seq<real>)
    ensures Times(0.0, Sum(Products(x[..0], y[..0]))) == 0.0 && Times(Sum(x[..0]), Sum(y[..0])) == 0.0
  {
    TimesByZero(Sum(Products(x[..0], y[..0])));
    TimesByZero(0.0);
  }

  lemma PairStep(n: real, sxy: real, sx: real, sy: real, x: real, y: real)
    ensures Times(n, sxy) - Times(sx, sy) + (sxy - Times(x, sy) - Times(y, sx) + Times(n, Times(x, y)))
            == Times(n + 1.0, sxy + Times(x, y)) - Times(sx + x, sy + y)
  {
  }

  lemma MeansOut(n: real, sxy: real, sx: real, sy: real, mx: real, my: real)
    requires Times(mx, n) == sx && Times(my, n) == sy
    ensures Times(n, sxy - Times(mx, sy) - Times(my, sx) + Times(n, Times(mx, my))) == Times(n, sxy) - Times(sx, sy)
  {
    assert Times(n, Times(mx, sy)) == Times(sx, sy);
    assert Times(n, Times(my, sx)) == Times(sx, sy);
    assert Times(n, Times(n, Times(mx, my))) == Times(sx, sy);
  }

  /** n times the sum of the products of deviations is the sum over all pairs of the products of differences. */
  lemma DeviationsArePairs(x: seq<real>, y: seq<real>)
    requires |x| == |y| >= 2
    ensures Times(|x| as real, Sum(Products(Deviations(x), Deviations(y)))) == PairSum(x, y, |x|)
  {
    hide Times, Sum, Products;
    var n := |x| as real;
    SumsOfDeviations(x, y, Mean(x), Mean(y), Deviations(x), Deviations(y));
    QuotientTimes(Sum(x), n);
    QuotientTimes(Sum(y), n);
    MeansOut(n, Sum(Products(x, y)), Sum(x), Sum(y), Mean(x), Mean(y));
    PairSumIs(x, y, |x|);
    assert x[..|x|] == x && y[..|x|] == y;
  }

  /** The correlation weighs every pair of observations: concordant ones for, discordant ones against. */
  lemma PearsonCountsPairs(x: seq<real>, y: seq<real>)
    requires |x| == |y| >= 2 && Pearson(x, y).Success?
    ensures var c := Pearson(x, y).value;
            && Times(|x| as real, c.sxy) == PairSum(x, y, |x|)
            && Times(|x| as real, c.sxx) == PairSum(x, x, |x|) && Times(|x| as real, c.syy) == PairSum(y, y, |x|)
  {
    hide Times, Sum, Products, PairSum;
    DeviationsArePairs(x, y);
    DeviationsArePairs(x, x);
    DeviationsArePairs(y, y);
  }

  /** Against an affine image of itself a series correlates at +1 or -1, by the sign of the slope. */
  lemma PearsonOfAffine(x: seq<real>, y: seq<real>, a: real, b: real)
    requires |x| == |y| >= 2 && Pearson(x, y).Success?
    requires forall i :: 0 <= i < |x| ==> y[i] == a + Times(b, x[i])
    ensures var c := Pearson(x, y).value; c.sxy == Times(b, c.sxx) && c.syy == Times(b, c.sxy)
  {
    hide Times, Sum, Products, PairSum;
    var n, c := |x| as real, Pearson(x, y).value;
    PearsonCountsPairs(x, y);
    forall i, j | 0 <= i < |x| && 0 <= j < |x| ensures y[i] - y[j] == Times(b, x[i] - x[j]) {
      AffineDifference(b, x[i], x[j]);
    }
    AffinePairs(x, y, b, |x|);
    Cancel(n, c.sxy, b, c.sxx);
    Cancel(n, c.syy, b, c.sxy);
  }

  lemma AffineDifference(b: real, x: real, y: real)
    ensures Times(b, x) - Times(b, y) == Times(b, x - y)
  {
  }

  lemma Cancel(n: real, x: real, b: real, y: real)
    requires n > 0.0 && Times(n, x) == Times(b, Times(n, y))
    ensures x == Times(b, y)
  {
    assert Times(b, Times(n, y)) == Times(n, Times(b, y));
    var d := x - Times(b, y);
    assert Times(n, d) == 0.0;
    assert Times(n, d) / n == d;
  }

  lemma {:induction false} AffinePairs(x: seq<real>, y: seq<real>, b: real, n: nat)
    requires n <= |x| == |y|
    requires forall i, j :: 0 <= i < |x| && 0 <= j < |x| ==> y[i] - y[j] == Times(b, x[i] - x[j])
    ensures PairSum(x, y, n) == Times(b, PairSum(x, x, n)) && PairSum(y, y, n) == Times(b, PairSum(x, y, n))
  {
    if n == 0 {
      TimesByZero(b);
    } else {
      hide Times;
      AffinePairs(x, y, b, n - 1);
      AffinePairsWith(x, y, b, n - 1, n - 1);
      Distribute(b, PairSum(x, x, n - 1), PairsWith(x, x, n - 1, n - 1));
      Distribute(b, PairSum(x, y, n - 1), PairsWith(x, y, n - 1, n - 1));
    }
  }

  lemma {:induction false} AffinePairsWith(x: seq<real>, y: seq<real>, b: real, j: nat, n: nat)
    requires n <= |x| == |y| && j < |x|
    requires forall i, j :: 0 <= i < |x| && 0 <= j < |x| ==> y[i] - y[j] == Times(b, x[i] - x[j])
    ensures PairsWith(x, y, j, n) == Times(b, PairsWith(x, x, j, n)) && PairsWith(y, y, j, n) == Times(b, PairsWith(x, y, j, n))
  {
    if n == 0 {
      TimesByZero(b);
    } else {
      hide Times;
      AffinePairsWith(x, y, b, j, n - 1);
      var d, e := x[j] - x[n - 1], y[j] - y[n - 1];
      assert e == Times(b, d);
      SlopeOut(b, d);
      SlopeOnce(b, d, e);
      Distribute(b, PairsWith(x, x, j, n - 1), Times(d, d));
      Distribute(b, PairsWith(x, y, j, n - 1), Times(d, e));
    }
  }

  lemma SlopeOut(b: real, d: real)
    ensures Times(d, Times(b, d)) == Times(b, Times(d, d))
  {
  }

  lemma SlopeOnce(b: real, d: real, e: real)
    ensures Times(Times(b, d), e) == Times(b, Times(d, e))
  {
  }

  /** The rank correlation: the correlation of the midranks. */
  method Spearman(x: seq<real>, y: seq<real>) returns (r: Result<Correlation, StatError>)
    ensures r == Pearson(MidrankList(x, x), MidrankList(y, y))
  {
    hide Pearson, Midrank;
    var rx := Midranks(x);
    var ry := Midranks(y);
    assert rx == MidrankList(x, x) && ry == MidrankList(y, y);
    r := Pearson(rx, ry);
  }

  /** Only the order of the scores matters to the rank correlation. */
  lemma SpearmanMonotone(x: seq<real>, f: real -> real, images: seq<real>, y: seq<real>)
    requires forall a, b :: a < b ==> f(a) < f(b)
    requires |images| == |x| && forall j :: 0 <= j < |x| ==> images[j] == f(x[j])
    ensures Pearson(MidrankList(images, images), MidrankList(y, y)) == Pearson(MidrankList(x, x), MidrankList(y, y))
  {
    hide Pearson, Midrank;
    forall i | 0 <= i < |x| ensures MidrankList(images, images)[i] == MidrankList(x, x)[i] {
      MidrankMonotone(x, f, images, i);
    }
    assert MidrankList(images, images) == MidrankList(x, x);
  }

  // ---------------------------------------------------------------- tails

  function RealLeq(): (real, real) -> bool {
    (a, b) => a <= b
  }

  /** The 0-based position of the quantile among n sorted observations. */
  function TailIndex(alpha: real, n: nat): (k: nat)
    requires 0.0 < alpha < 1.0 && n > 0
    ensures k < n && k as real < Times(alpha, n as real) <= (k + 1) as real
  {
    var x := Times(alpha, n as real);
    IndexInRange(alpha, n as real);
    Ceil(x) - 1
  }

  lemma IndexInRange(alpha: real, n: real)
    requires 0.0 < alpha < 1.0 && n > 0.0
    ensures 0.0 < Times(alpha, n) < n
  {
    ProductPositive(alpha, n);
    ProductPositive(1.0 - alpha, n);
    assert Times(1.0 - alpha, n) == n - Times(alpha, n);
  }

  function TailQuantile(values: seq<real>, alpha: real): Result<real, StatError> {
    if !(0.0 < alpha < 1.0) then Failure(BadAlpha)
    else if values == [] then Failure(EmptySample)
    else
      var ordered := SortBy(values, RealLeq());
      SortContents(values, RealLeq());
      Success(ordered[TailIndex(alpha, |values|)])
  }

  function AtMost(v: real): real -> bool {
    x => x <= v
  }

  /** The quantile is the smallest observation that at least an alpha fraction of the sample does not exceed. */
  lemma QuantileIsOrderStatistic(values: seq<real>, alpha: real)
    requires TailQuantile(values, alpha).Success?
    ensures TailQuantile(values, alpha).value in values
    ensures Count(values, AtMost(TailQuantile(values, alpha).value)) as real >= Times(alpha, |values| as real)
    ensures Count(values, Below(TailQuantile(values, alpha).value)) as real < Times(alpha, |values| as real)
  {
    hide Times, SortBy, Sorted, Count;
    var leq := RealLeq();
    var ordered := SortBy(values, leq);
    SortContents(values, leq);
    SortIsSorted(values, leq);
    var k := TailIndex(alpha, |values|);
    var q := ordered[k];
    assert q in multiset(ordered);
    CountContents(values, ordered, AtMost(q));
    CountContents(values, ordered, Below(q));
    RankOfEntry(ordered, k);
  }

  lemma RankOfEntry(ordered: seq<real>, k: nat)
    requires k < |ordered| && Sorted(ordered, RealLeq())
    ensures Count(ordered, AtMost(ordered[k])) >= k + 1
    ensures Count(ordered, Below(ordered[k])) <= k
  {
    var q, a, b := ordered[k], ordered[..k + 1], ordered[k + 1..];
    assert ordered == a + b;
    CountConcat(a, b, AtMost(q));
    forall i | 0 <= i < |a| ensures AtMost(q)(a[i]) {
      assert i < k ==> RealLeq()(ordered[i], ordered[k]);
    }
    CountAll(a, AtMost(q), true);
    var front, back := ordered[..k], ordered[k..];
    assert ordered == front + back;
    CountConcat(front, back, Below(q));
    forall i | 0 <= i < |back| ensures !Below(q)(back[i]) {
      assert i > 0 ==> RealLeq()(ordered[k], ordered[k + i]);
    }
    CountAll(back, Below(q), false);
    CountBounded(front, Below(q));
  }

  lemma {:induction false} CountBounded<T>(s: seq<T>, p: T -> bool)
    ensures Count(s, p) <= |s|
    decreases |s|
  {
    if s != [] {
      CountBounded(s[1..], p);
    }
  }

  function Tail(values: seq<real>, cutoff: real): seq<real> {
    if values == [] then [] else
    var n := |values| - 1;
    Tail(values[..n], cutoff) + if values[n] <= cutoff then [values[n]] else []
  }

  function ExpectedShortfall(values: seq<real>, alpha: real): Result<real, StatError> {
    match TailQuantile(values, alpha)
    case Failure(e) => Failure(e)
    case Success(cutoff) =>
      var tail := Tail(values, cutoff);
      if tail == [] then Failure(EmptySample) else Success(Mean(tail))
  }

  lemma {:induction false} TailFacts(values: seq<real>, cutoff: real)
    ensures forall i :: 0 <= i < |Tail(values, cutoff)| ==> Tail(values, cutoff)[i] <= cutoff
    ensures |Tail(values, cutoff)| == Count(values, AtMost(cutoff))
    decreases |values|
  {
    if values != [] {
      var n := |values| - 1;
      TailFacts(values[..n], cutoff);
      assert values == values[..n] + [values[n]];
      CountConcat(values[..n], [values[n]], AtMost(cutoff));
      CountOne(values[n], AtMost(cutoff));
    }
  }

  /** The shortfall is defined whenever the quantile is, averages at least an alpha fraction of the sample, and is
      no better than the quantile. */
  lemma ShortfallBelowQuantile(values: seq<real>, alpha: real)
    requires TailQuantile(values, alpha).Success?
    ensures ExpectedShortfall(values, alpha).Success?
    ensures |Tail(values, TailQuantile(values, alpha).value)| as real >= Times(alpha, |values| as real)
    ensures ExpectedShortfall(values, alpha).value <= TailQuantile(values, alpha).value
  {
    hide TailQuantile, Sum;
    var q := TailQuantile(values, alpha).value;
    QuantileIsOrderStatistic(values, alpha);
    TailFacts(values, q);
    var tail := Tail(values, q);
    assert tail != [] by { SampleSize(values, alpha); }
    var flat := seq(|tail|, _ => q);
    SumMonotone(tail, flat);
    SumConstant(flat, q);
    MeanBelow(Sum(tail), |tail| as real, q);
  }

  lemma SampleSize(values: seq<real>, alpha: real)
    requires TailQuantile(values, alpha).Success?
    ensures Times(alpha, |values| as real) > 0.0
  {
    ProductPositive(alpha, |values| as real);
  }

  lemma MeanBelow(total: real, n: real, q: real)
    requires n > 0.0 && total <= n * q
    ensures total / n <= q
  {
    var m := total / n;
    assert Times(m, n) == total;
    assert Times(m - q, n) == Times(m, n) - n * q;
    if m > q {
      ProductPositive(m - q, n);
    }
  }

  /** The values at or below a cutoff, with the others counted as nothing. */
  function TailValues(values: seq<real>, cutoff: real): (v: seq<real>)
    ensures |v| == |values|
  {
    seq(|values|, i requires 0 <= i < |values| => if values[i] <= cutoff then values[i] else 0.0)
  }

  lemma {:induction false} TailSum(values: seq<real>, cutoff: real)
    ensures Sum(Tail(values, cutoff)) == Sum(TailValues(values, cutoff))
    decreases |values|
  {
    if values != [] {
      var n := |values| - 1;
      TailSum(values[..n], cutoff);
      assert TailValues(values, cutoff)[..n] == TailValues(values[..n], cutoff);
      if values[n] <= cutoff {
        SumAppend(Tail(values[..n], cutoff), values[n]);
      } else {
        assert Tail(values, cutoff) == Tail(values[..n], cutoff);
      }
    }
  }

  /** Quantile and shortfall are defined for a proper tail of a sample; the shortfall is the mean of what the quantile covers. */
  lemma ShortfallIsTailMean(values: seq<real>, alpha: real)
    ensures TailQuantile(values, alpha).Success? <==> 0.0 < alpha < 1.0 && values != []
    ensures ExpectedShortfall(values, alpha).Success? <==> 0.0 < alpha < 1.0 && values != []
    ensures ExpectedShortfall(values, alpha).Success? ==>
              var q := TailQuantile(values, alpha).value;
              Times(ExpectedShortfall(values, alpha).value, Count(values, AtMost(q)) as real) == Sum(TailValues(values, q))
  {
    hide Sum, Tail, Times, SortBy;
    if TailQuantile(values, alpha).Success? {
      var q := TailQuantile(values, alpha).value;
      ShortfallBelowQuantile(values, alpha);
      TailFacts(values, q);
      TailSum(values, q);
      QuotientTimes(Sum(Tail(values, q)), |Tail(values, q)| as real);
    }
  }
}

/** The signal-weighted long/short book: residualise, split by sign, scale each leg, cap. */
module SignalWeighted {
  import opened Sums
  import opened Ordering
  import opened Wrappers
  import opened Dictionaries
  import opened PositionCaps
  import Fractiles

  datatype Mode = NoResidualization | Joint | PerLeg

  datatype Spec = Spec(nFractiles: int, grossExposure: real, maxWeight: Option<real>, mode: Mode)

  predicate ValidSpec(s: Spec) {
    s.nFractiles >= 2 && s.grossExposure > 0.0 && (s.maxWeight.Some? ==> s.maxWeight.value > 0.0)
  }

  datatype BookError = FractileFailure | UnusedExposure | MissingExposure | DegenerateLeg | CapTooTight

  // ---------------------------------------------------------------- residuals

  function Restrict(m: map<Id, real>, ids: set<Id>): map<Id, real> {
    map k | k in m && k in ids :: m[k]
  }

  /** Entrywise product, zero where the second dictionary has no entry. */
  function Products(a: map<Id, real>, b: map<Id, real>): map<Id, real> {
    map k | k in a :: Times(a[k], At(b, k))
  }

  function Shifted(m: map<Id, real>, mean: real): map<Id, real> {
    map k | k in m :: m[k] - mean
  }

  /** Deviations from the mean. */
  ghost function Centered(m: map<Id, real>): map<Id, real> {
    if m == map[] then map[] else Shifted(m, MapSum(m) / |m.Keys| as real)
  }

  function LessSlope(s: map<Id, real>, slope: real, b: map<Id, real>): map<Id, real> {
    map k | k in s :: s[k] - Times(slope, At(b, k))
  }

  /** Residuals of the regression of scores on an intercept and beta; slope 0 when beta does not vary. */
  ghost function OlsResiduals(scores: map<Id, real>, beta: map<Id, real>): map<Id, real> {
    var s, b := Centered(scores), Centered(beta);
    var variance := MapSum(Products(b, b));
    if variance == 0.0 then s else LessSlope(s, MapSum(Products(s, b)) / variance, b)
  }

  method Center(m: map<Id, real>) returns (c: map<Id, real>)
    ensures c == Centered(m)
  {
    var total := SumValues(m);
    c := if m == map[] then map[] else Shifted(m, total / |m.Keys| as real);
  }

  method ComputeResiduals(scores: map<Id, real>, beta: map<Id, real>) returns (r: map<Id, real>)
    ensures r == OlsResiduals(scores, beta)
  {
    hide MapSum;
    var s := Center(scores);
    var b := Center(beta);
    var variance := SumValues(Products(b, b));
    if variance == 0.0 {
      return s;
    }
    var covariance := SumValues(Products(s, b));
    r := LessSlope(s, covariance / variance, b);
  }

  /** Deviations from the mean sum to zero. */
  lemma CenteredSum(m: map<Id, real>)
    ensures Centered(m).Keys == m.Keys
    ensures MapSum(Centered(m)) == 0.0
  {
    if m != map[] {
      var n, mean := |m.Keys| as real, MapSum(m) / |m.Keys| as real;
      var means := map k | k in m :: mean;
      MapSumAdd(Centered(m), means, m);
      MapSumConstant(means, mean);
      assert means.Keys == m.Keys;
      QuotientTimes(MapSum(m), n);
    }
  }

  /** A deviation product against raw values equals the one against deviations. */
  lemma ProductsCentered(e: map<Id, real>, b: map<Id, real>)
    requires e.Keys == b.Keys && MapSum(e) == 0.0
    ensures MapSum(Products(e, b)) == MapSum(Products(e, Centered(b)))
  {
    hide MapSum, Times;
    if b == map[] {
      assert Products(e, b) == Products(e, Centered(b));
    } else {
      var mean := MapSum(b) / |b.Keys| as real;
      var scaled := map k | k in e :: Times(mean, e[k]);
      forall k | k in e ensures Products(e, b)[k] == Products(e, Centered(b))[k] + scaled[k] {
        SplitFactor(e[k], b[k], mean);
      }
      MapSumAdd(Products(e, Centered(b)), scaled, Products(e, b));
      MapSumScale(mean, e, scaled);
      TimesByZero(mean);
    }
  }

  lemma SplitFactor(e: real, b: real, mean: real)
    ensures Times(e, b) == Times(e, b - mean) + Times(mean, e)
  {
  }

  lemma SquaresVanish(b: map<Id, real>)
    requires MapSum(Products(b, b)) == 0.0
    ensures forall k :: k in b ==> b[k] == 0.0
  {
    hide MapSum;
    var zero := map k | k in b :: 0.0;
    forall k | k in b ensures 0.0 <= Products(b, b)[k] {
      Square(b[k]);
    }
    MapSumConstant(zero, 0.0);
    TimesByZero(|zero.Keys| as real);
    MapSumMonotone(zero, Products(b, b));
    forall k | k in b ensures b[k] == 0.0 {
      assert Products(b, b)[k] == zero[k];
      Square(b[k]);
    }
  }

  /** Scores that sum to zero and have no exposure to beta. */
  ghost predicate Neutral(e: map<Id, real>, beta: map<Id, real>) {
    MapSum(e) == 0.0 && MapSum(Products(e, beta)) == 0.0
  }

  lemma SlopeRemoved(s: map<Id, real>, slope: real, b: map<Id, real>)
    requires s.Keys == b.Keys && MapSum(s) == 0.0 && MapSum(b) == 0.0
    ensures MapSum(LessSlope(s, slope, b)) == 0.0
    ensures MapSum(Products(LessSlope(s, slope, b), b)) == MapSum(Products(s, b)) - Times(slope, MapSum(Products(b, b)))
  {
    hide MapSum, Times;
    var e := LessSlope(s, slope, b);
    var sloped := map k | k in b :: Times(slope, b[k]);
    MapSumAdd(e, sloped, s);
    MapSumScale(slope, b, sloped);
    TimesByZero(slope);
    var squares := map k | k in b :: Times(slope, Products(b, b)[k]);
    forall k | k in s ensures Products(s, b)[k] == Products(e, b)[k] + squares[k] {
      SlopeTerm(s[k], slope, b[k]);
    }
    MapSumAdd(Products(e, b), squares, Products(s, b));
    MapSumScale(slope, Products(b, b), squares);
  }

  lemma SlopeTerm(s: real, slope: real, b: real)
    ensures Times(s, b) == Times(s - Times(slope, b), b) + Times(slope, Times(b, b))
  {
  }

  /** Regression residuals sum to zero and are orthogonal to beta, also when beta does not vary. */
  lemma ResidualsNeutral(scores: map<Id, real>, beta: map<Id, real>)
    requires scores.Keys == beta.Keys
    ensures OlsResiduals(scores, beta).Keys == scores.Keys
    ensures Neutral(OlsResiduals(scores, beta), beta)
  {
    hide MapSum, Centered, Times;
    var s, b, e := Centered(scores), Centered(beta), OlsResiduals(scores, beta);
    CenteredSum(scores);
    CenteredSum(beta);
    var variance := MapSum(Products(b, b));
    if variance == 0.0 {
      SquaresVanish(b);
      var products := Products(e, b);
      forall k | k in products ensures products[k] == 0.0 { TimesByZero(e[k]); }
      MapSumConstant(products, 0.0);
      TimesByZero(|products.Keys| as real);
    } else {
      SlopeRemoved(s, MapSum(Products(s, b)) / variance, b);
      QuotientTimes(MapSum(Products(s, b)), variance);
    }
    ProductsCentered(e, beta);
  }

  // ---------------------------------------------------------------- the weighting score

  /** The weighting score over the selected names, per mode. */
  ghost function Weighting(mode: Mode, scores: map<Id, real>, longs: set<Id>, shorts: set<Id>, beta: map<Id, real>): map<Id, real> {
    match mode
    case NoResidualization => Centered(Restrict(scores, longs + shorts))
    case Joint => OlsResiduals(Restrict(scores, longs + shorts), Restrict(beta, longs + shorts))
    case PerLeg => OlsResiduals(Restrict(scores, longs), Restrict(beta, longs))
                   + OlsResiduals(Restrict(scores, shorts), Restrict(beta, shorts))
  }

  /** When residualisation goes through: a beta vector exactly when the mode uses one, and no selected name without one. */
  predicate ExposureFits(mode: Mode, selected: set<Id>, beta: Option<map<Id, real>>) {
    if mode == NoResidualization then beta.None? else beta.Some? && selected <= beta.value.Keys
  }

  function BetaOf(beta: Option<map<Id, real>>): map<Id, real> {
    if beta.Some? then beta.value else map[]
  }

  method Residualize(mode: Mode, scores: map<Id, real>, longs: set<Id>, shorts: set<Id>, beta: Option<map<Id, real>>)
    returns (r: Result<map<Id, real>, BookError>)
    ensures r.Success? <==> ExposureFits(mode, longs + shorts, beta)
    ensures r.Success? ==> r.value == Weighting(mode, scores, longs, shorts, BetaOf(beta))
    ensures r.Failure? ==> r.error == if mode == NoResidualization then UnusedExposure else MissingExposure
  {
    hide Centered, OlsResiduals, Restrict;
    if mode == NoResidualization {
      if beta.Some? {
        return Failure(UnusedExposure);
      }
      var c := Center(Restrict(scores, longs + shorts));
      return Success(c);
    }
    if beta.None? || !(longs + shorts <= beta.value.Keys) {
      return Failure(MissingExposure);
    }
    if mode == Joint {
      var e := ComputeResiduals(Restrict(scores, longs + shorts), Restrict(beta.value, longs + shorts));
      return Success(e);
    }
    var l := ComputeResiduals(Restrict(scores, longs), Restrict(beta.value, longs));
    var t := ComputeResiduals(Restrict(scores, shorts), Restrict(beta.value, shorts));
    r := Success(l + t);
  }

  lemma SameProducts(e: map<Id, real>, beta: map<Id, real>, ids: set<Id>)
    requires e.Keys <= ids
    ensures Products(e, Restrict(beta, ids)) == Products(e, beta)
  {
  }

  lemma NeutralUnion(a: map<Id, real>, b: map<Id, real>, beta: map<Id, real>)
    requires a.Keys !! b.Keys && Neutral(a, beta) && Neutral(b, beta)
    ensures Neutral(a + b, beta)
  {
    hide MapSum, Times;
    MapSumSplit(a + b, a, b);
    MapSumSplit(Products(a + b, beta), Products(a, beta), Products(b, beta));
  }

  lemma RestrictKeys(m: map<Id, real>, ids: set<Id>)
    requires ids <= m.Keys
    ensures Restrict(m, ids).Keys == ids
  {
  }

  /** In every mode the weighting score covers the selection and sums to zero; with a beta vector it is neutral to it. */
  lemma WeightingNeutral(mode: Mode, scores: map<Id, real>, longs: set<Id>, shorts: set<Id>, beta: map<Id, real>)
    requires longs + shorts <= scores.Keys && longs !! shorts
    requires mode != NoResidualization ==> longs + shorts <= beta.Keys
    ensures Weighting(mode, scores, longs, shorts, beta).Keys == longs + shorts
    ensures MapSum(Weighting(mode, scores, longs, shorts, beta)) == 0.0
    ensures mode != NoResidualization ==> Neutral(Weighting(mode, scores, longs, shorts, beta), beta)
  {
    hide MapSum, Centered, OlsResiduals, Restrict, Products;
    RestrictKeys(scores, longs + shorts);
    match mode
    case NoResidualization =>
      CenteredSum(Restrict(scores, longs + shorts));
    case Joint =>
      LegNeutral(scores, beta, longs + shorts);
    case PerLeg =>
      LegNeutral(scores, beta, longs);
      LegNeutral(scores, beta, shorts);
      NeutralUnion(OlsResiduals(Restrict(scores, longs), Restrict(beta, longs)),
                   OlsResiduals(Restrict(scores, shorts), Restrict(beta, shorts)), beta);
  }

  lemma LegNeutral(scores: map<Id, real>, beta: map<Id, real>, ids: set<Id>)
    requires ids <= scores.Keys && ids <= beta.Keys
    ensures OlsResiduals(Restrict(scores, ids), Restrict(beta, ids)).Keys == ids
    ensures Neutral(OlsResiduals(Restrict(scores, ids), Restrict(beta, ids)), beta)
  {
    hide MapSum, OlsResiduals, Restrict, Products;
    RestrictKeys(scores, ids);
    RestrictKeys(beta, ids);
    ResidualsNeutral(Restrict(scores, ids), Restrict(beta, ids));
    SameProducts(OlsResiduals(Restrict(scores, ids), Restrict(beta, ids)), beta, ids);
  }

  // ---------------------------------------------------------------- least squares

  /** The scores less an intercept and a multiple of beta. */
  ghost predicate FittedBy(e: map<Id, real>, scores: map<Id, real>, beta: map<Id, real>, a: real, b: real) {
    forall k :: k in e ==> e[k] == At(scores, k) - (a + Times(b, At(beta, k)))
  }

  /** What a regression of scores on an intercept and beta leaves over the given names. */
  ghost predicate IsRegression(e: map<Id, real>, scores: map<Id, real>, beta: map<Id, real>, ids: set<Id>) {
    e.Keys == ids && Neutral(e, beta) && exists a, b :: FittedBy(e, scores, beta, a, b)
  }

  lemma SlopeFits(s: real, ms: real, slope: real, b: real, mb: real)
    ensures s - ms - Times(slope, b - mb) == s - (ms - Times(slope, mb) + Times(slope, b))
  {
  }

  lemma OlsFits(scores: map<Id, real>, beta: map<Id, real>, ids: set<Id>)
    requires ids <= scores.Keys && ids <= beta.Keys
    ensures exists a, b :: FittedBy(OlsResiduals(Restrict(scores, ids), Restrict(beta, ids)), scores, beta, a, b)
  {
    hide MapSum, Times, Products;
    RestrictKeys(scores, ids);
    RestrictKeys(beta, ids);
    var rs, rb := Restrict(scores, ids), Restrict(beta, ids);
    var e := OlsResiduals(rs, rb);
    if ids == {} {
      assert FittedBy(e, scores, beta, 0.0, 0.0);
    } else {
      var ms, mb := MapSum(rs) / |rs.Keys| as real, MapSum(rb) / |rb.Keys| as real;
      var s, b := Centered(rs), Centered(rb);
      var variance := MapSum(Products(b, b));
      var slope := if variance == 0.0 then 0.0 else MapSum(Products(s, b)) / variance;
      forall k | k in e ensures e[k] == At(scores, k) - (ms - Times(slope, mb) + Times(slope, At(beta, k))) {
        SlopeFits(scores[k], ms, slope, beta[k], mb);
        if variance == 0.0 {
          TimesByZero(beta[k] - mb);
        }
      }
      assert FittedBy(e, scores, beta, ms - Times(slope, mb), slope);
    }
  }

  lemma OlsIsRegression(scores: map<Id, real>, beta: map<Id, real>, ids: set<Id>)
    requires ids <= scores.Keys && ids <= beta.Keys
    ensures IsRegression(OlsResiduals(Restrict(scores, ids), Restrict(beta, ids)), scores, beta, ids)
  {
    hide OlsResiduals, Restrict, FittedBy;
    LegNeutral(scores, beta, ids);
    OlsFits(scores, beta, ids);
  }

  /** No other intercept and slope leave less. */
  lemma ResidualsAreLeast(e: map<Id, real>, f: map<Id, real>, scores: map<Id, real>, beta: map<Id, real>, ids: set<Id>, a: real, b: real)
    requires IsRegression(e, scores, beta, ids) && f.Keys == ids && FittedBy(f, scores, beta, a, b)
    ensures MapSum(Products(e, e)) <= MapSum(Products(f, f))
  {
    hide MapSum, Times, Neutral, FittedBy, Products;
    var a0, b0 :| FittedBy(e, scores, beta, a0, b0);
    var bound := map k | k in ids :: LowerBound(e[k], a0 - a, b0 - b, At(beta, k));
    forall k | k in ids ensures k in Products(f, f) && bound[k] <= Products(f, f)[k] {
      EntryBelow(e, f, scores, beta, a0, b0, a, b, k);
    }
    assert bound.Keys == Products(f, f).Keys by { ProductKeys(f); }
    MapSumMonotone(bound, Products(f, f));
    OrthogonalGap(e, beta, a0 - a, b0 - b, bound);
  }

  /** The square of e, and the cross terms with a shift of the intercept and the slope. */
  function LowerBound(e: real, da: real, db: real, x: real): real {
    Times(e, e) + Times(2.0 * da, e) + Times(2.0 * db, Times(e, x))
  }

  lemma ProductKeys(f: map<Id, real>)
    ensures Products(f, f).Keys == f.Keys
  {
  }

  lemma EntryBelow(
      e: map<Id, real>, f: map<Id, real>, scores: map<Id, real>, beta: map<Id, real>, a0: real, b0: real, a: real, b: real, k: Id)
    requires k in e && k in f && FittedBy(e, scores, beta, a0, b0) && FittedBy(f, scores, beta, a, b)
    ensures k in Products(f, f) && LowerBound(e[k], a0 - a, b0 - b, At(beta, k)) <= Products(f, f)[k]
  {
    hide Times, LowerBound;
    LargerSquare(e[k], f[k], a0 - a, b0 - b, At(beta, k));
    TiltedBy(b0, b, At(beta, k));
  }

  /** Neutral residuals meet no cross terms in sum. */
  lemma OrthogonalGap(e: map<Id, real>, beta: map<Id, real>, da: real, db: real, bound: map<Id, real>)
    requires Neutral(e, beta) && bound.Keys == e.Keys
    requires forall k :: k in e ==> bound[k] == LowerBound(e[k], da, db, At(beta, k))
    ensures MapSum(bound) == MapSum(Products(e, e))
  {
    hide MapSum, Times;
    var shifts := map k | k in e :: Times(2.0 * da, e[k]);
    var tilts := map k | k in e :: Times(2.0 * db, Products(e, beta)[k]);
    var base := map k | k in e :: Products(e, e)[k] + shifts[k];
    MapSumScale(2.0 * da, e, shifts);
    MapSumScale(2.0 * db, Products(e, beta), tilts);
    MapSumAdd(Products(e, e), shifts, base);
    MapSumAdd(base, tilts, bound);
    TimesByZero(2.0 * da);
    TimesByZero(2.0 * db);
  }

  lemma TiltedBy(b0: real, b: real, x: real)
    ensures Times(b0 - b, x) == Times(b0, x) - Times(b, x)
  {
  }

  lemma LargerSquare(e: real, f: real, da: real, db: real, x: real)
    ensures f == e + (da + Times(db, x)) ==> LowerBound(e, da, db, x) <= Times(f, f)
  {
    var d := da + Times(db, x);
    if f == e + d {
      Square(d);
      assert Times(f, f) == Times(e, e) + 2.0 * Times(e, d) + Times(d, d);
      assert Times(e, d) == Times(da, e) + Times(db, Times(e, x));
    }
  }

  /** The weighting score, per mode: deviations from the selection's mean, or what regressions on beta leave. */
  ghost predicate WeighsBy(w: map<Id, real>, mode: Mode, scores: map<Id, real>, longs: set<Id>, shorts: set<Id>, beta: map<Id, real>) {
    match mode
    case NoResidualization =>
      w.Keys == longs + shorts && MapSum(w) == 0.0 && exists mean :: Deviates(w, scores, mean)
    case Joint => IsRegression(w, scores, beta, longs + shorts)
    case PerLeg =>
      && w.Keys == longs + shorts
      && IsRegression(Restrict(w, longs), scores, beta, longs) && IsRegression(Restrict(w, shorts), scores, beta, shorts)
  }

  ghost predicate Deviates(w: map<Id, real>, scores: map<Id, real>, mean: real) {
    forall k :: k in w ==> w[k] == At(scores, k) - mean
  }

  lemma WeightingMeans(mode: Mode, scores: map<Id, real>, longs: set<Id>, shorts: set<Id>, beta: map<Id, real>)
    requires longs + shorts <= scores.Keys && longs !! shorts && longs != {}
    requires mode != NoResidualization ==> longs + shorts <= beta.Keys
    ensures WeighsBy(Weighting(mode, scores, longs, shorts, beta), mode, scores, longs, shorts, beta)
  {
    hide MapSum, OlsResiduals, IsRegression, Products;
    WeightingNeutral(mode, scores, longs, shorts, beta);
    RestrictKeys(scores, longs + shorts);
    match mode
    case NoResidualization =>
      var r := Restrict(scores, longs + shorts);
      assert Deviates(Centered(r), scores, MapSum(r) / |r.Keys| as real);
    case Joint => OlsIsRegression(scores, beta, longs + shorts);
    case PerLeg =>
      OlsIsRegression(scores, beta, longs);
      OlsIsRegression(scores, beta, shorts);
      LegNeutral(scores, beta, longs);
      LegNeutral(scores, beta, shorts);
      var w := Weighting(mode, scores, longs, shorts, beta);
      assert Restrict(w, longs) == OlsResiduals(Restrict(scores, longs), Restrict(beta, longs));
      assert Restrict(w, shorts) == OlsResiduals(Restrict(scores, shorts), Restrict(beta, shorts));
  }

  // ---------------------------------------------------------------- the legs

  function PositivePart(w: map<Id, real>): map<Id, real> {
    map k | k in w && w[k] > 0.0 :: w[k]
  }

  function NegativePart(w: map<Id, real>): map<Id, real> {
    map k | k in w && w[k] < 0.0 :: -w[k]
  }

  /** Scores that sum to zero have equally heavy sides. */
  lemma EqualSides(w: map<Id, real>)
    requires MapSum(w) == 0.0
    ensures MapSum(PositivePart(w)) == MapSum(NegativePart(w))
  {
    hide MapSum;
    var up := map k | k in w :: At(PositivePart(w), k);
    var down := map k | k in w :: At(NegativePart(w), k);
    MapSumAdd(w, down, up);
    MapSumDropZeros(up, PositivePart(w));
    MapSumDropZeros(down, NegativePart(w));
  }

  function ScaledLeg(magnitudes: map<Id, real>, half: real, total: real): map<Id, real>
    requires total > 0.0
  {
    map k | k in magnitudes :: Times(magnitudes[k], half) / total
  }

  lemma ScaleEntry(m: real, half: real, total: real)
    requires total > 0.0
    ensures Times(m, half) / total == Times(half / total, m)
  {
    var s := half / total;
    assert Times(s, total) == half;
    assert Times(Times(s, m), total) == Times(m, half);
  }

  lemma ScaledLegFacts(magnitudes: map<Id, real>, half: real, total: real)
    requires AllPositive(magnitudes) && half > 0.0 && total > 0.0 && total == MapSum(magnitudes)
    ensures AllPositive(ScaledLeg(magnitudes, half, total)) && half / total > 0.0
    ensures MapSum(ScaledLeg(magnitudes, half, total)) == half
    ensures forall k :: k in magnitudes ==> ScaledLeg(magnitudes, half, total)[k] == Times(half / total, magnitudes[k])
  {
    hide MapSum, Times;
    assert half / total > 0.0;
    forall k | k in magnitudes
      ensures ScaledLeg(magnitudes, half, total)[k] == Times(half / total, magnitudes[k]) > 0.0
    {
      ScaleEntry(magnitudes[k], half, total);
      ProductPositive(half / total, magnitudes[k]);
    }
    MapSumScale(half / total, magnitudes, ScaledLeg(magnitudes, half, total));
    QuotientTimes(half, total);
  }

  /** One leg of the book: the right names, the right total, and what the cap or its absence means. */
  ghost predicate IsLeg(leg: map<Id, real>, magnitudes: map<Id, real>, half: real, cap: Option<real>) {
    && leg.Keys == magnitudes.Keys && AllPositive(leg) && MapSum(leg) == half && MapSum(magnitudes) > 0.0
    && (cap.Some? ==> IsCapped(leg, ScaledLeg(magnitudes, half, MapSum(magnitudes)), cap.value))
    && (cap.None? ==> forall k :: k in leg ==> leg[k] == Times(half / MapSum(magnitudes), magnitudes[k]))
  }

  /** The scaled leg at the water level of the cap. */
  ghost predicate IsCapped(leg: map<Id, real>, scaled: map<Id, real>, cap: real) {
    && (forall k :: k in leg ==> leg[k] <= cap)
    && exists level :: level >= 1.0 && leg == WaterLevel(scaled, cap, level)
  }

  lemma CappedLeg(scaled: map<Id, real>, magnitudes: map<Id, real>, half: real, cap: real, level: real)
    requires MapSum(magnitudes) > 0.0 && scaled == ScaledLeg(magnitudes, half, MapSum(magnitudes))
    requires AllPositive(scaled) && cap > 0.0 && level >= 1.0
    requires MapSum(WaterLevel(scaled, cap, level)) == half
    ensures IsLeg(WaterLevel(scaled, cap, level), magnitudes, half, Some(cap))
  {
    hide MapSum, Times;
    forall k | k in scaled ensures WaterLevel(scaled, cap, level)[k] > 0.0 {
      ProductPositive(level, scaled[k]);
    }
  }

  method BuildLeg(magnitudes: map<Id, real>, half: real, cap: Option<real>) returns (r: Result<map<Id, real>, BookError>)
    requires AllPositive(magnitudes) && magnitudes != map[] && half > 0.0 && (cap.Some? ==> cap.value > 0.0)
    ensures r.Failure? <==> cap.Some? && Times(cap.value, |magnitudes.Keys| as real) < half
    ensures r.Failure? ==> r.error == CapTooTight
    ensures r.Success? ==> IsLeg(r.value, magnitudes, half, cap)
    ensures MapSum(magnitudes) > 0.0
  {
    hide MapSum, Times, AllPositive, WaterLevel, ScaledLeg;
    MapSumPositiveOf(magnitudes);
    var total := SumValues(magnitudes);
    var scaled := ScaledLeg(magnitudes, half, total);
    ScaledLegFacts(magnitudes, half, total);
    ScaledKeys(magnitudes, half, total);
    if cap.None? {
      return Success(scaled);
    }
    var capped, level, passes := ApplyPositionCaps(scaled, cap.value, half);
    if capped.Failure? {
      return Failure(CapTooTight);
    }
    CappedLeg(scaled, magnitudes, half, cap.value, level);
    r := Success(capped.value);
  }

  lemma ScaledKeys(magnitudes: map<Id, real>, half: real, total: real)
    requires total > 0.0
    ensures ScaledLeg(magnitudes, half, total).Keys == magnitudes.Keys
  {
  }

  lemma MapSumPositiveOf(m: map<Id, real>)
    requires AllPositive(m) && m != map[]
    ensures MapSum(m) > 0.0
  {
    MapSumPositive(m);
  }

  // ---------------------------------------------------------------- the book

  function Negated(m: map<Id, real>): map<Id, real> {
    map k | k in m :: -m[k]
  }

  /** What every book satisfies, for the weighting score it was built from. */
  ghost predicate IsBook(book: map<Id, real>, w: map<Id, real>, spec: Spec) {
    && (forall k :: k in book <==> k in w && w[k] != 0.0)
    && (forall k :: k in book ==> (book[k] > 0.0 <==> w[k] > 0.0) && (book[k] < 0.0 <==> w[k] < 0.0))
    && MapSum(book) == 0.0
    && MapSum(map k | k in book :: Abs(book[k])) == spec.grossExposure
    && (spec.maxWeight.Some? ==> forall k :: k in book ==> Abs(book[k]) <= spec.maxWeight.value)
  }

  lemma NegatedSum(m: map<Id, real>)
    ensures MapSum(Negated(m)) == -MapSum(m)
  {
    hide MapSum;
    var zero := map k | k in m :: 0.0;
    MapSumAdd(m, Negated(m), zero);
    MapSumConstant(zero, 0.0);
    TimesByZero(|zero.Keys| as real);
  }

  lemma LegsMakeBook(w: map<Id, real>, longs: map<Id, real>, shorts: map<Id, real>, half: real, spec: Spec)
    requires half == spec.grossExposure / 2.0
    requires IsLeg(longs, PositivePart(w), half, spec.maxWeight) && IsLeg(shorts, NegativePart(w), half, spec.maxWeight)
    ensures IsBook(longs + Negated(shorts), w, spec)
  {
    hide MapSum, Times;
    var book := longs + Negated(shorts);
    assert longs.Keys !! shorts.Keys;
    NegatedSum(shorts);
    MapSumSplit(book, longs, Negated(shorts));
    MapSumSplit(map k | k in book :: Abs(book[k]), longs, shorts);
  }

  /** The book is the weighting score's non-zero part times one scalar. */
  ghost predicate IsScaled(book: map<Id, real>, w: map<Id, real>, c: real) {
    && (forall k :: k in book <==> k in w && w[k] != 0.0)
    && forall k :: k in book ==> book[k] == Times(c, w[k])
  }

  /** Without caps both legs share one scalar, so the book is the weighting score times that scalar. */
  lemma UncappedBookScales(w: map<Id, real>, longs: map<Id, real>, shorts: map<Id, real>, half: real)
    requires MapSum(w) == 0.0 && half > 0.0
    requires IsLeg(longs, PositivePart(w), half, None) && IsLeg(shorts, NegativePart(w), half, None)
    ensures IsScaled(longs + Negated(shorts), w, half / MapSum(PositivePart(w)))
  {
    hide MapSum, Times;
    EqualSides(w);
    var c := half / MapSum(PositivePart(w));
    forall k | k in longs + Negated(shorts) ensures k in w && (longs + Negated(shorts))[k] == Times(c, w[k]) {
      if k in shorts {
        TimesNegated(c, w[k]);
      }
    }
  }

  lemma TimesNegated(c: real, x: real)
    ensures -Times(c, -x) == Times(c, x)
  {
  }

  /** A scaled score keeps zero beta exposure. */
  lemma ExposureScales(book: map<Id, real>, w: map<Id, real>, c: real, beta: map<Id, real>)
    requires IsScaled(book, w, c)
    requires MapSum(Products(w, beta)) == 0.0
    ensures MapSum(Products(book, beta)) == 0.0
  {
    hide MapSum, Times;
    var scaled := map k | k in w :: Times(c, Products(w, beta)[k]);
    MapSumScale(c, Products(w, beta), scaled);
    TimesByZero(c);
    forall k | k in w ensures scaled[k] == At(Products(book, beta), k) {
      ProductOrder(c, w[k], At(beta, k));
      if w[k] == 0.0 {
        TimesByZero(At(beta, k));
        TimesByZero(c);
      }
    }
    MapSumDropZeros(scaled, Products(book, beta));
  }

  lemma ProductOrder(c: real, w: real, b: real)
    ensures Times(c, Times(w, b)) == Times(Times(c, w), b)
  {
  }

  /** The names of the top fractile. */
  function TopLeg(ids: seq<Id>, scores: map<Id, real>, k: int): set<Id>
    requires Fractiles.Lists(ids, scores)
  {
    match Fractiles.TopBottom(ids, scores, k)
    case Failure(_) => {}
    case Success((top, _)) => set sec | sec in top
  }

  /** The names of the bottom fractile. */
  function BottomLeg(ids: seq<Id>, scores: map<Id, real>, k: int): set<Id>
    requires Fractiles.Lists(ids, scores)
  {
    match Fractiles.TopBottom(ids, scores, k)
    case Failure(_) => {}
    case Success((_, bottom)) => set sec | sec in bottom
  }

  /** The fractile legs as sets of names. */
  method SelectLegs(ids: seq<Id>, scores: map<Id, real>, k: int) returns (ok: bool, longs: set<Id>, shorts: set<Id>)
    requires Fractiles.Lists(ids, scores)
    ensures ok <==> 2 <= k <= |ids|
    ensures longs == TopLeg(ids, scores, k) && shorts == BottomLeg(ids, scores, k)
    ensures ok ==> longs + shorts <= scores.Keys && longs !! shorts && longs != {} && shorts != {}
    ensures ok ==> Fractiles.AreExtremes(longs, shorts, scores, k)
  {
    var legs := Fractiles.TopBottom(ids, scores, k);
    LegSets(ids, scores, k);
    hide Fractiles.AreExtremes, Fractiles.TopBottom;
    ok, longs, shorts := legs.Success?, {}, {};
    if ok {
      var (top, bottom) := legs.value;
      longs, shorts := set k | k in top, set k | k in bottom;
    }
  }

  lemma LegSets(ids: seq<Id>, scores: map<Id, real>, k: int)
    requires Fractiles.Lists(ids, scores)
    ensures Fractiles.TopBottom(ids, scores, k).Success? <==> 2 <= k <= |ids|
    ensures var longs, shorts := TopLeg(ids, scores, k), BottomLeg(ids, scores, k);
            Fractiles.TopBottom(ids, scores, k).Success? ==>
              && longs + shorts <= scores.Keys && longs !! shorts && longs != {} && shorts != {}
              && Fractiles.AreExtremes(longs, shorts, scores, k)
  {
    hide Fractiles.AreExtremes, Fractiles.Bin, Fractiles.ScoreLeq;
    Fractiles.FractilesEqualCount(ids, scores, k);
    hide Fractiles.AssignFractiles;
    if Fractiles.TopBottom(ids, scores, k).Success? {
      hide Fractiles.TopBottom;
      Fractiles.LegsSeparate(ids, scores, k);
      Fractiles.LegsAreExtremes(ids, scores, k);
      var (top, bottom) := Fractiles.TopBottom(ids, scores, k).value;
      assert top[0] in TopLeg(ids, scores, k) && bottom[0] in BottomLeg(ids, scores, k);
    }
  }

  /** The weighting score is that of the best and the worst names of the universe. */
  ghost predicate Selected(w: map<Id, real>, scores: map<Id, real>, spec: Spec, beta: map<Id, real>)
    requires spec.nFractiles > 0
  {
    exists longs, shorts ::
      Fractiles.AreExtremes(longs, shorts, scores, spec.nFractiles) && WeighsBy(w, spec.mode, scores, longs, shorts, beta)
  }

  /** Builds the book. It is dollar neutral at the configured gross; without caps it carries no beta exposure. */
  method BuildSignalWeightedPortfolio(ids: seq<Id>, scores: map<Id, real>, spec: Spec, beta: Option<map<Id, real>>)
    returns (r: Result<map<Id, real>, BookError>, ghost w: map<Id, real>)
    requires ValidSpec(spec) && Fractiles.Lists(ids, scores)
    ensures r == Failure(FractileFailure) <==> |ids| < spec.nFractiles
    ensures w == if r == Failure(FractileFailure) || r == Failure(UnusedExposure) || r == Failure(MissingExposure) then map[]
                 else Weighting(spec.mode, scores, TopLeg(ids, scores, spec.nFractiles), BottomLeg(ids, scores, spec.nFractiles), BetaOf(beta))
    ensures r == Failure(UnusedExposure) || r == Failure(MissingExposure)
       <==> |ids| >= spec.nFractiles
            && !ExposureFits(spec.mode, TopLeg(ids, scores, spec.nFractiles) + BottomLeg(ids, scores, spec.nFractiles), beta)
    ensures r.Success? || r == Failure(CapTooTight) || r == Failure(DegenerateLeg) ==> Selected(w, scores, spec, BetaOf(beta))
    ensures r.Success? ==> IsBook(r.value, w, spec) && MadeOfLegs(r.value, w, spec)
    ensures r == Failure(CapTooTight) ==> SideTooSmall(PositivePart(w), spec) || SideTooSmall(NegativePart(w), spec)
    ensures r.Success? && spec.mode != NoResidualization ==> Neutral(w, BetaOf(beta))
    ensures r.Success? && spec.mode != NoResidualization && spec.maxWeight.None? ==>
              MapSum(Products(r.value, BetaOf(beta))) == 0.0
    ensures r == Failure(DegenerateLeg) ==> w != map[] && forall k :: k in w ==> w[k] == 0.0
  {
    hide MapSum, Weighting, IsBook, IsScaled, Products, Times, ExposureFits, TopLeg, BottomLeg, MadeOfLegs, SideTooSmall,
      WeighsBy, Fractiles.AreExtremes;
    w := map[];
    var ok, longs, shorts := SelectLegs(ids, scores, spec.nFractiles);
    if !ok {
      return Failure(FractileFailure), w;
    }
    var weighting := Residualize(spec.mode, scores, longs, shorts, beta);
    if weighting.Failure? {
      return Failure(weighting.error), w;
    }
    w := weighting.value;
    assert spec.mode != NoResidualization ==> longs + shorts <= BetaOf(beta).Keys by {
      ExposureCovers(spec.mode, longs + shorts, beta);
    }
    WeightingNeutral(spec.mode, scores, longs, shorts, BetaOf(beta));
    WeightingMeans(spec.mode, scores, longs, shorts, BetaOf(beta));
    r := LegsOf(weighting.value, spec);
    if r.Success? && spec.mode != NoResidualization && spec.maxWeight.None? {
      ghost var c :| IsScaled(r.value, w, c);
      ExposureScales(r.value, w, c, BetaOf(beta));
    }
  }

  lemma ExposureCovers(mode: Mode, selected: set<Id>, beta: Option<map<Id, real>>)
    requires ExposureFits(mode, selected, beta)
    ensures mode != NoResidualization ==> selected <= BetaOf(beta).Keys
  {
  }

  /** The book is a long leg of the positive scores and a short leg of the negative ones. */
  ghost predicate MadeOfLegs(book: map<Id, real>, w: map<Id, real>, spec: Spec) {
    exists longs, shorts ::
      && book == longs + Negated(shorts)
      && IsLeg(longs, PositivePart(w), spec.grossExposure / 2.0, spec.maxWeight)
      && IsLeg(shorts, NegativePart(w), spec.grossExposure / 2.0, spec.maxWeight)
  }

  /** A side with fewer names than it takes to hold half the gross under the cap. */
  predicate SideTooSmall(side: map<Id, real>, spec: Spec) {
    spec.maxWeight.Some? && Times(spec.maxWeight.value, |side.Keys| as real) < spec.grossExposure / 2.0
  }

  /** A side holds half the gross, every name within the cap. */
  ghost predicate Holds(leg: map<Id, real>, side: map<Id, real>, spec: Spec)
    requires spec.maxWeight.Some?
  {
    && leg.Keys == side.Keys && MapSum(leg) == spec.grossExposure / 2.0
    && forall k :: k in leg ==> 0.0 < leg[k] <= spec.maxWeight.value
  }

  /** A side is too small exactly when its names cannot hold half the gross within the cap, however it is divided. */
  lemma SideTooSmallIff(side: map<Id, real>, spec: Spec)
    requires ValidSpec(spec) && spec.maxWeight.Some? && side != map[]
    ensures SideTooSmall(side, spec) <==> !exists leg :: Holds(leg, side, spec)
  {
    hide MapSum, Times;
    var half, cap, n := spec.grossExposure / 2.0, spec.maxWeight.value, |side.Keys| as real;
    if leg :| Holds(leg, side, spec) {
      var full := map k | k in leg :: cap;
      assert full.Keys == side.Keys;
      MapSumMonotone(leg, full);
      MapSumConstant(full, cap);
      Commute(cap, n);
    }
    if !SideTooSmall(side, spec) {
      Populated(side);
      var even := map k | k in side :: half / n;
      assert even.Keys == side.Keys;
      MapSumConstant(even, half / n);
      QuotientTimes(half, n);
      Commute(half / n, n);
      EvenShare(half, cap, n);
      assert Holds(even, side, spec);
    }
  }

  lemma Populated(m: map<Id, real>)
    requires m != map[]
    ensures |m.Keys| > 0
  {
    var k :| k in m;
    assert k in m.Keys;
  }

  lemma EvenShare(half: real, cap: real, n: real)
    requires half > 0.0 && n > 0.0 && Times(cap, n) >= half
    ensures 0.0 < half / n <= cap
  {
    var x := half / n;
    assert Times(x, n) == half;
    if x > cap {
      ProductPositive(x - cap, n);
    }
  }

  /** Splits the weighting score by sign and scales each side to half the gross. */
  method LegsOf(w: map<Id, real>, spec: Spec) returns (r: Result<map<Id, real>, BookError>)
    requires ValidSpec(spec) && MapSum(w) == 0.0
    ensures r.Success? ==> IsBook(r.value, w, spec) && MadeOfLegs(r.value, w, spec)
    ensures r == Failure(CapTooTight)
       <==> !(forall k :: k in w ==> w[k] == 0.0) && (SideTooSmall(PositivePart(w), spec) || SideTooSmall(NegativePart(w), spec))
    ensures r.Success? && spec.maxWeight.None? ==> exists c :: IsScaled(r.value, w, c)
    ensures r.Failure? ==> r.error == DegenerateLeg || r.error == CapTooTight
    ensures r == Failure(DegenerateLeg) <==> forall k :: k in w ==> w[k] == 0.0
  {
    hide MapSum, IsBook, IsLeg, Times;
    var positive, negative := PositivePart(w), NegativePart(w);
    OneSided(w);
    if positive == map[] || negative == map[] {
      return Failure(DegenerateLeg);
    }
    var half := spec.grossExposure / 2.0;
    var longs := BuildLeg(positive, half, spec.maxWeight);
    var shorts := BuildLeg(negative, half, spec.maxWeight);
    if longs.Failure? || shorts.Failure? {
      return Failure(CapTooTight);
    }
    LegsMakeBook(w, longs.value, shorts.value, half, spec);
    if spec.maxWeight.None? {
      UncappedBookScales(w, longs.value, shorts.value, half);
    }
    r := Success(longs.value + Negated(shorts.value));
  }

  /** Scores that sum to zero are one-sided only when they are all zero. */
  lemma OneSided(w: map<Id, real>)
    requires MapSum(w) == 0.0
    ensures PositivePart(w) == map[] || NegativePart(w) == map[] <==> forall k :: k in w ==> w[k] == 0.0
  {
    EqualSides(w);
    MapSumPositive(PositivePart(w));
    MapSumPositive(NegativePart(w));
    if PositivePart(w) == map[] || NegativePart(w) == map[] {
      assert PositivePart(w) == map[] && NegativePart(w) == map[];
      forall k | k in w ensures w[k] == 0.0 {
        assert k !in PositivePart(w) && k !in NegativePart(w);
      }
    }
    if forall k :: k in w ==> w[k] == 0.0 {
      assert PositivePart(w) == map[];
    }
  }
}

/** The boosting loop: exponential reweighting, first-best selection, and the summed predictor. */
module Boosting {
  import opened Sums
  import opened Wrappers

  // ---------------------------------------------------------------- inputs

  /** A coverage-normalised rank, or a missing value. */
  datatype Cell = Missing | Rank(value: real)

  /** Labelled training panel, one list of cells per factor column. */
  datatype TrainingMatrix = TrainingMatrix(factorIds: seq<string>, columns: seq<seq<Cell>>, labels: seq<int>)

  predicate ValidMatrix(m: TrainingMatrix) {
    && m.factorIds != [] && |m.columns| == |m.factorIds| && m.labels != []
    && (forall i, j :: 0 <= i < j < |m.factorIds| ==> m.factorIds[i] != m.factorIds[j])
    && (forall c :: 0 <= c < |m.columns| ==> |m.columns[c]| == |m.labels|)
    && (forall i :: 0 <= i < |m.labels| ==> m.labels[i] == 1 || m.labels[i] == -1)
    && (forall c, i :: 0 <= c < |m.columns| && 0 <= i < |m.labels| && m.columns[c][i].Rank? ==>
          0.0 < m.columns[c][i].value <= 1.0)
  }

  /** A frozen weak learner; a prediction of None stands for a non-finite value. */
  datatype FittedFactor = FittedFactor(factorId: string, predict: seq<Cell> -> seq<Option<real>>)

  datatype KernelOutcome = Fit(fitted: FittedFactor) | StopTraining | SkipAlpha

  type Kernel = (seq<Cell>, seq<int>, seq<real>, string) -> KernelOutcome

  /** The hooks' contract: a fit carries the id it was asked for, and predicts one value per row. */
  ghost predicate KernelContract(kernel: Kernel) {
    forall ranks, labels, weights, id :: kernel(ranks, labels, weights, id).Fit? ==>
      var f := kernel(ranks, labels, weights, id).fitted;
      f.factorId == id && forall cells :: |f.predict(cells)| == |cells|
  }

  datatype Objective = Objective(
    minimize: bool, allowRepeats: bool, score: (FittedFactor, TrainingMatrix, seq<real>) -> Option<real>)

  /** What is used of the exponential: it is positive, turns sums into products, and exceeds 1 from 0 on. */
  ghost predicate IsExp(exp: real -> real) {
    && (forall x :: exp(x) > 0.0)
    && (forall x, y :: exp(x + y) == Times(exp(x), exp(y)))
    && exp(0.0) == 1.0
    && (forall x :: x >= 0.0 ==> exp(x) >= 1.0)
  }

  datatype BoostingError =
    | BadRoundCount
    | NonFiniteScore
    | NoEligibleCandidate
    | NonFinitePrediction
    | MissingColumn

  datatype BoostResult = BoostResult(
    rounds: seq<FittedFactor>, selectedFactorIds: seq<string>, selectionScores: seq<real>)

  const SIMPLEX_ATOL: real := 0.000000000001

  // ---------------------------------------------------------------- the shared primitive

  function ExpReweight(exp: real -> real, weights: seq<real>, labels: seq<int>, h: seq<real>): (w: seq<real>)
    requires |weights| == |labels| == |h|
    ensures |w| == |weights|
  {
    seq(|weights|, i requires 0 <= i < |weights| => Times(weights[i], exp(-(labels[i] as real * h[i]))))
  }

  function Renormalize(w: seq<real>): (n: seq<real>)
    requires Sum(w) > 0.0
    ensures |n| == |w|
  {
    seq(|w|, i requires 0 <= i < |w| => w[i] / Sum(w))
  }

  predicate Positive(w: seq<real>) {
    forall i :: 0 <= i < |w| ==> w[i] > 0.0
  }

  /** Strictly positive weights that sum to one. */
  predicate Simplex(w: seq<real>) {
    Positive(w) && Sum(w) == 1.0
  }

  lemma {:induction false} PositiveSum(w: seq<real>)
    requires Positive(w)
    ensures Sum(w) >= 0.0
    ensures w != [] ==> Sum(w) > 0.0
    decreases |w|
  {
    if w != [] {
      PositiveSum(w[..|w| - 1]);
    }
  }

  lemma ReweightPositive(exp: real -> real, w: seq<real>, labels: seq<int>, h: seq<real>)
    requires IsExp(exp) && Positive(w) && |w| == |labels| == |h| > 0
    ensures Positive(ExpReweight(exp, w, labels, h)) && Sum(ExpReweight(exp, w, labels, h)) > 0.0
  {
    var u := ExpReweight(exp, w, labels, h);
    forall i | 0 <= i < |u| ensures u[i] > 0.0 {
      ProductPositive(w[i], exp(-(labels[i] as real * h[i])));
    }
    PositiveSum(u);
  }

  lemma DivideThrough(x: real, total: real)
    requires total > 0.0
    ensures Times(total, x / total) == x && Times(x / total, total) == x
    ensures x > 0.0 ==> x / total > 0.0
  {
  }

  lemma RenormalizeSimplex(w: seq<real>)
    requires Positive(w) && Sum(w) > 0.0
    ensures Simplex(Renormalize(w))
  {
    var n := Renormalize(w);
    forall i | 0 <= i < |w| ensures n[i] > 0.0 && w[i] == Times(Sum(w), n[i]) {
      DivideThrough(w[i], Sum(w));
    }
    SumScale(Sum(w), n, w);
    UnitFactor(Sum(w), Sum(n));
  }

  lemma UnitFactor(total: real, x: real)
    requires total > 0.0 && total == Times(total, x)
    ensures x == 1.0
  {
    assert Times(total, x - 1.0) == 0.0;
    if x > 1.0 {
      ProductPositive(total, x - 1.0);
    } else if x < 1.0 {
      ProductPositive(total, 1.0 - x);
    }
  }

  // ---------------------------------------------------------------- selection

  datatype Choice = Choice(fit: FittedFactor, score: real, column: nat)

  datatype Candidate = Ineligible | Stop | BadScore | Scored(fit: FittedFactor, score: real)

  /** What the kernel and the objective make of one column. */
  function Consider(m: TrainingMatrix, kernel: Kernel, objective: Objective, weights: seq<real>, chosen: seq<string>, c: nat): Candidate
    requires c < |m.columns| == |m.factorIds|
  {
    if !objective.allowRepeats && m.factorIds[c] in chosen then Ineligible
    else match kernel(m.columns[c], m.labels, weights, m.factorIds[c])
      case StopTraining => Stop
      case SkipAlpha => Ineligible
      case Fit(f) =>
        match objective.score(f, m, weights)
        case None => BadScore
        case Some(s) => Scored(f, s)
  }

  predicate Better(objective: Objective, score: real, best: real) {
    if objective.minimize then score < best else score > best
  }

  /** None of the first n columns stops the training or scores badly. */
  ghost predicate NoHalt(m: TrainingMatrix, kernel: Kernel, objective: Objective, weights: seq<real>, chosen: seq<string>, n: nat)
    requires n <= |m.columns| == |m.factorIds|
  {
    forall c :: 0 <= c < n ==>
      !Consider(m, kernel, objective, weights, chosen, c).Stop? && !Consider(m, kernel, objective, weights, chosen, c).BadScore?
  }

  /** Column c is the first to stop the training, or to score badly. */
  ghost predicate HaltsAt(
      m: TrainingMatrix, kernel: Kernel, objective: Objective, weights: seq<real>, chosen: seq<string>, c: nat, why: Candidate)
    requires |m.columns| == |m.factorIds|
  {
    c < |m.columns| && NoHalt(m, kernel, objective, weights, chosen, c) && Consider(m, kernel, objective, weights, chosen, c) == why
  }

  /** The choice is the best scored candidate among the first n columns, and the earliest such; none of them halts the scan. */
  ghost predicate FirstBest(
      m: TrainingMatrix, kernel: Kernel, objective: Objective, weights: seq<real>, chosen: seq<string>, n: nat, best: Choice)
    requires n <= |m.columns| == |m.factorIds|
  {
    && best.column < n && NoHalt(m, kernel, objective, weights, chosen, n)
    && Consider(m, kernel, objective, weights, chosen, best.column) == Scored(best.fit, best.score)
    && forall c :: 0 <= c < n && Consider(m, kernel, objective, weights, chosen, c).Scored? ==>
         var s := Consider(m, kernel, objective, weights, chosen, c).score;
         !Better(objective, s, best.score) && (c < best.column ==> Better(objective, best.score, s))
  }

  datatype ScanOutcome = Best(choice: Choice) | Stopped | NoCandidate | ScoreError

  /** Scans the candidate columns in registry order; a later candidate must be strictly better. */
  method ScanCandidates(m: TrainingMatrix, kernel: Kernel, objective: Objective, weights: seq<real>, chosen: seq<string>)
    returns (outcome: ScanOutcome)
    requires ValidMatrix(m)
    ensures outcome.Best? ==> FirstBest(m, kernel, objective, weights, chosen, |m.columns|, outcome.choice)
    ensures outcome.NoCandidate? ==> forall c :: 0 <= c < |m.columns| ==> Consider(m, kernel, objective, weights, chosen, c).Ineligible?
    ensures outcome.Stopped? ==> exists c :: HaltsAt(m, kernel, objective, weights, chosen, c, Stop)
    ensures outcome.ScoreError? ==> exists c :: HaltsAt(m, kernel, objective, weights, chosen, c, BadScore)
  {
    hide Consider;
    outcome := NoCandidate;
    for column := 0 to |m.columns|
      invariant outcome.Best? || outcome.NoCandidate?
      invariant outcome.Best? ==> FirstBest(m, kernel, objective, weights, chosen, column, outcome.choice)
      invariant outcome.NoCandidate? ==> forall c :: 0 <= c < column ==> Consider(m, kernel, objective, weights, chosen, c).Ineligible?
      invariant NoHalt(m, kernel, objective, weights, chosen, column)
    {
      match Consider(m, kernel, objective, weights, chosen, column)
      case Ineligible =>
      case Stop =>
        assert HaltsAt(m, kernel, objective, weights, chosen, column, Stop);
        return Stopped;
      case BadScore =>
        assert HaltsAt(m, kernel, objective, weights, chosen, column, BadScore);
        return ScoreError;
      case Scored(fit, score) =>
        if outcome.NoCandidate? || Better(objective, score, outcome.choice.score) {
          outcome := Best(Choice(fit, score, column));
        }
    }
  }

  // ---------------------------------------------------------------- the summed predictor

  /** The finite values of a prediction list. */
  predicate AllFinite(h: seq<Option<real>>) {
    forall i :: 0 <= i < |h| ==> h[i].Some?
  }

  function Values(h: seq<Option<real>>): (v: seq<real>)
    requires AllFinite(h)
    ensures |v| == |h|
  {
    seq(|h|, i requires 0 <= i < |h| => h[i].value)
  }

  function AddFinite(a: Option<real>, b: Option<real>): Option<real> {
    if a.Some? && b.Some? then Some(a.value + b.value) else None
  }

  /** The column a factor's cells are stored in; a repeated id means its last column. */
  function ColumnOf(factorIds: seq<string>, id: string): (c: nat)
    requires id in factorIds
    ensures c < |factorIds| && factorIds[c] == id
    decreases |factorIds|
  {
    var last := |factorIds| - 1;
    if factorIds[last] == id then last else ColumnOf(factorIds[..last], id)
  }

  predicate KnownRounds(rounds: seq<FittedFactor>, factorIds: seq<string>) {
    forall l :: 0 <= l < |rounds| ==> rounds[l].factorId in factorIds
  }

  ghost predicate RoundsFit(rounds: seq<FittedFactor>) {
    forall l, cells :: 0 <= l < |rounds| ==> |rounds[l].predict(cells)| == |cells|
  }

  /** The weak learner's value on one row of a panel. */
  ghost function WeakScore(f: FittedFactor, factorIds: seq<string>, columns: seq<seq<Cell>>, i: nat): Option<real>
    requires f.factorId in factorIds && |columns| == |factorIds|
    requires forall cells :: |f.predict(cells)| == |cells|
    requires forall c :: 0 <= c < |columns| ==> i < |columns[c]|
  {
    f.predict(columns[ColumnOf(factorIds, f.factorId)])[i]
  }

  /** H(x): the plain sum of the rounds, row by row. */
  ghost function StrongScore(rounds: seq<FittedFactor>, factorIds: seq<string>, columns: seq<seq<Cell>>, i: nat): Option<real>
    requires KnownRounds(rounds, factorIds) && RoundsFit(rounds) && |columns| == |factorIds|
    requires forall c :: 0 <= c < |columns| ==> i < |columns[c]|
  {
    if rounds == [] then Some(0.0) else
    var n := |rounds| - 1;
    AddFinite(StrongScore(rounds[..n], factorIds, columns, i), WeakScore(rounds[n], factorIds, columns, i))
  }

  method PredictBoosted(rounds: seq<FittedFactor>, columns: seq<seq<Cell>>, factorIds: seq<string>, nObs: nat)
    returns (r: Result<seq<Option<real>>, BoostingError>)
    requires |columns| == |factorIds| && RoundsFit(rounds)
    requires forall c :: 0 <= c < |columns| ==> |columns[c]| == nObs
    ensures r.Success? <==> KnownRounds(rounds, factorIds)
    ensures r.Success? ==> |r.value| == nObs
    ensures r.Success? ==> forall i :: 0 <= i < nObs ==> r.value[i] == StrongScore(rounds, factorIds, columns, i)
  {
    var total := seq(nObs, i => Some(0.0));
    for l := 0 to |rounds|
      invariant |total| == nObs && KnownRounds(rounds[..l], factorIds)
      invariant forall i :: 0 <= i < nObs ==> total[i] == StrongScore(rounds[..l], factorIds, columns, i)
    {
      var fitted := rounds[l];
      if fitted.factorId !in factorIds {
        return Failure(MissingColumn);
      }
      assert rounds[..l + 1] == rounds[..l] + [fitted];
      assert rounds[..l + 1][..l] == rounds[..l];
      var h := fitted.predict(columns[ColumnOf(factorIds, fitted.factorId)]);
      total := seq(nObs, i requires 0 <= i < nObs => AddFinite(total[i], h[i]));
    }
    assert rounds[..|rounds|] == rounds;
    r := Success(total);
  }

  // ---------------------------------------------------------------- the loop

  function Product(z: seq<real>): real {
    if z == [] then 1.0 else Times(Product(z[..|z| - 1]), z[|z| - 1])
  }

  /** The margin of a training row under the rounds so far: its label times H. */
  ghost function Margin(m: TrainingMatrix, rounds: seq<FittedFactor>, i: nat): real
    requires ValidMatrix(m) && KnownRounds(rounds, m.factorIds) && RoundsFit(rounds) && i < |m.labels|
  {
    var h := StrongScore(rounds, m.factorIds, m.columns, i);
    if h.Some? then m.labels[i] as real * h.value else 0.0
  }

  /** Every round's prediction is finite on the training panel. */
  ghost predicate FiniteOnTraining(m: TrainingMatrix, rounds: seq<FittedFactor>)
    requires ValidMatrix(m) && KnownRounds(rounds, m.factorIds) && RoundsFit(rounds)
  {
    forall i :: 0 <= i < |m.labels| ==> StrongScore(rounds, m.factorIds, m.columns, i).Some?
  }

  /** Each weight times the product of the normalisers is (1/n) * exp(-margin). */
  ghost predicate Telescopes(exp: real -> real, m: TrainingMatrix, rounds: seq<FittedFactor>, w: seq<real>, z: seq<real>)
    requires ValidMatrix(m) && KnownRounds(rounds, m.factorIds) && RoundsFit(rounds)
  {
    && |w| == |m.labels| && |z| == |rounds|
    && forall i :: 0 <= i < |w| ==>
         Times(w[i], Product(z)) == Times(1.0 / |w| as real, exp(-Margin(m, rounds, i)))
  }

  lemma TelescopeAlgebra(exp: real -> real, w: real, product: real, z: real, base: real, before: real, now: real)
    requires IsExp(exp) && z > 0.0
    requires Times(w, product) == Times(base, exp(-before))
    ensures Times(Times(w, exp(-now)) / z, Times(product, z)) == Times(base, exp(-(before + now)))
  {
    var e, u := exp(-now), Times(w, exp(-now)) / z;
    assert exp(-before + -now) == Times(exp(-before), e);
    assert -before + -now == -(before + now);
    DivideThrough(Times(w, e), z);
    Regroup(u, product, z);
    assert Times(u, z) == Times(w, e);
    Regroup2(w, e, product);
    assert Times(Times(w, product), e) == Times(Times(base, exp(-before)), e);
    Regroup3(base, exp(-before), e);
  }

  lemma Regroup(u: real, p: real, z: real)
    ensures Times(u, Times(p, z)) == Times(Times(u, z), p)
  {
  }

  lemma Regroup2(w: real, e: real, p: real)
    ensures Times(Times(w, e), p) == Times(Times(w, p), e)
  {
  }

  lemma Regroup3(b: real, f: real, e: real)
    ensures Times(Times(b, f), e) == Times(b, Times(f, e))
  {
  }

  /** One more round on the training panel. */
  ghost predicate Extends(m: TrainingMatrix, rounds: seq<FittedFactor>, f: FittedFactor, column: nat, h: seq<real>)
    requires ValidMatrix(m)
  {
    && column < |m.columns| && f.factorId == m.factorIds[column]
    && (forall cells :: |f.predict(cells)| == |cells|)
    && AllFinite(f.predict(m.columns[column])) && h == Values(f.predict(m.columns[column]))
  }

  lemma {:induction false} ColumnOfDistinct(factorIds: seq<string>, column: nat)
    requires column < |factorIds|
    requires forall i, j :: 0 <= i < j < |factorIds| ==> factorIds[i] != factorIds[j]
    ensures ColumnOf(factorIds, factorIds[column]) == column
  {
  }

  lemma MarginGrows(m: TrainingMatrix, rounds: seq<FittedFactor>, f: FittedFactor, column: nat, h: seq<real>, i: nat)
    requires ValidMatrix(m) && KnownRounds(rounds, m.factorIds) && RoundsFit(rounds) && i < |m.labels|
    requires FiniteOnTraining(m, rounds) && Extends(m, rounds, f, column, h)
    ensures KnownRounds(rounds + [f], m.factorIds) && RoundsFit(rounds + [f])
    ensures StrongScore(rounds + [f], m.factorIds, m.columns, i).Some?
    ensures Margin(m, rounds + [f], i) == Margin(m, rounds, i) + m.labels[i] as real * h[i]
  {
    var all := rounds + [f];
    assert all[..|rounds|] == rounds;
    ColumnOfDistinct(m.factorIds, column);
    assert WeakScore(f, m.factorIds, m.columns, i) == Some(h[i]);
    var s := StrongScore(rounds, m.factorIds, m.columns, i).value;
    assert StrongScore(all, m.factorIds, m.columns, i) == Some(s + h[i]);
    Distribute(m.labels[i] as real, s, h[i]);
  }

  lemma TelescopeStep(
      exp: real -> real, m: TrainingMatrix, rounds: seq<FittedFactor>, f: FittedFactor, column: nat, h: seq<real>,
      w: seq<real>, z: seq<real>)
    requires ValidMatrix(m) && KnownRounds(rounds, m.factorIds) && RoundsFit(rounds)
    requires IsExp(exp) && Simplex(w)
    requires FiniteOnTraining(m, rounds) && Telescopes(exp, m, rounds, w, z) && Extends(m, rounds, f, column, h)
    ensures KnownRounds(rounds + [f], m.factorIds) && RoundsFit(rounds + [f])
    ensures Sum(ExpReweight(exp, w, m.labels, h)) > 0.0
    ensures FiniteOnTraining(m, rounds + [f])
    ensures Telescopes(exp, m, rounds + [f], Renormalize(ExpReweight(exp, w, m.labels, h)),
                       z + [Sum(ExpReweight(exp, w, m.labels, h))])
  {
    hide Times, IsExp, Margin, StrongScore, Sum;
    ReweightPositive(exp, w, m.labels, h);
    var u := ExpReweight(exp, w, m.labels, h);
    var total := Sum(u);
    var w' := Renormalize(u);
    assert (z + [total])[..|z|] == z;
    forall i | 0 <= i < |m.labels|
      ensures KnownRounds(rounds + [f], m.factorIds) && RoundsFit(rounds + [f])
      ensures StrongScore(rounds + [f], m.factorIds, m.columns, i).Some?
      ensures Times(w'[i], Product(z + [total])) == Times(1.0 / |w| as real, exp(-Margin(m, rounds + [f], i)))
    {
      MarginGrows(m, rounds, f, column, h, i);
      TelescopeAlgebra(exp, w[i], Product(z), total, 1.0 / |w| as real, Margin(m, rounds, i), m.labels[i] as real * h[i]);
    }
  }

  function Uniform(n: nat): (w: seq<real>)
    requires n > 0
    ensures |w| == n
  {
    seq(n, _ => 1.0 / n as real)
  }

  lemma UniformStarts(exp: real -> real, m: TrainingMatrix)
    requires ValidMatrix(m) && IsExp(exp)
    ensures Simplex(Uniform(|m.labels|)) && FiniteOnTraining(m, [])
    ensures Telescopes(exp, m, [], Uniform(|m.labels|), [])
  {
    var n := |m.labels|;
    SumConstant(Uniform(n), 1.0 / n as real);
    DivideThrough(1.0, n as real);
    forall i | 0 <= i < n ensures Margin(m, [], i) == 0.0 {
      assert Times(m.labels[i] as real, 0.0) == 0.0;
    }
  }

  /** What holds after every completed round. `trace` holds the weights after each round, from the uniform start. */
  ghost predicate History(
      exp: real -> real, m: TrainingMatrix, kernel: Kernel, objective: Objective,
      result: BoostResult, trace: seq<seq<real>>, z: seq<real>)
  {
    var rounds, ids, scores := result.rounds, result.selectedFactorIds, result.selectionScores;
    && ValidMatrix(m)
    && |rounds| == |ids| == |scores| == |z| == |trace| - 1
    && KnownRounds(rounds, m.factorIds) && RoundsFit(rounds) && FiniteOnTraining(m, rounds)
    && (forall r :: 0 <= r < |rounds| ==> ids[r] == rounds[r].factorId)
    && (forall r :: 0 <= r <= |rounds| ==> Simplex(trace[r]) && Telescopes(exp, m, rounds[..r], trace[r], z[..r]))
    && (forall r :: 0 <= r < |rounds| ==> SelectedAt(m, kernel, objective, result, trace, r))
    && (!objective.allowRepeats ==> forall i, j :: 0 <= i < j < |ids| ==> ids[i] != ids[j])
  }

  /** Round r took the first best candidate under the weights of its start. */
  ghost predicate SelectedAt(
      m: TrainingMatrix, kernel: Kernel, objective: Objective, result: BoostResult, trace: seq<seq<real>>, r: nat)
    requires |m.columns| == |m.factorIds|
    requires r < |result.rounds| == |result.selectedFactorIds| == |result.selectionScores| <= |trace|
  {
    exists column :: 0 <= column < |m.columns| && m.factorIds[column] == result.selectedFactorIds[r]
      && FirstBest(m, kernel, objective, trace[r], result.selectedFactorIds[..r], |m.columns|,
                   Choice(result.rounds[r], result.selectionScores[r], column))
  }

  function AddRound(result: BoostResult, choice: Choice): BoostResult {
    BoostResult(result.rounds + [choice.fit], result.selectedFactorIds + [choice.fit.factorId],
                result.selectionScores + [choice.score])
  }

  lemma SelectedStays(
      m: TrainingMatrix, kernel: Kernel, objective: Objective, result: BoostResult, trace: seq<seq<real>>,
      choice: Choice, w: seq<real>, r: nat)
    requires |m.columns| == |m.factorIds|
    requires r < |result.rounds| == |result.selectedFactorIds| == |result.selectionScores| == |trace| - 1
    requires SelectedAt(m, kernel, objective, result, trace, r)
    ensures SelectedAt(m, kernel, objective, AddRound(result, choice), trace + [w], r)
  {
    hide FirstBest;
    assert (result.selectedFactorIds + [choice.fit.factorId])[..r] == result.selectedFactorIds[..r];
  }

  lemma SelectedNow(
      m: TrainingMatrix, kernel: Kernel, objective: Objective, result: BoostResult, trace: seq<seq<real>>,
      choice: Choice, w: seq<real>)
    requires |m.columns| == |m.factorIds| && choice.column < |m.columns|
    requires |result.rounds| == |result.selectedFactorIds| == |result.selectionScores| == |trace| - 1
    requires m.factorIds[choice.column] == choice.fit.factorId
    requires FirstBest(m, kernel, objective, trace[|trace| - 1], result.selectedFactorIds, |m.columns|, choice)
    ensures SelectedAt(m, kernel, objective, AddRound(result, choice), trace + [w], |result.rounds|)
  {
    hide FirstBest;
    var n := |result.rounds|;
    assert (result.selectedFactorIds + [choice.fit.factorId])[..n] == result.selectedFactorIds;
    assert Choice(choice.fit, choice.score, choice.column) == choice;
  }

  lemma ChoiceFacts(m: TrainingMatrix, kernel: Kernel, objective: Objective, weights: seq<real>, chosen: seq<string>, choice: Choice)
    requires |m.columns| == |m.factorIds| && KernelContract(kernel)
    requires FirstBest(m, kernel, objective, weights, chosen, |m.columns|, choice)
    ensures choice.column < |m.columns| && m.factorIds[choice.column] == choice.fit.factorId
    ensures forall cells :: |choice.fit.predict(cells)| == |cells|
    ensures !objective.allowRepeats ==> choice.fit.factorId !in chosen
  {
    var outcome := kernel(m.columns[choice.column], m.labels, weights, m.factorIds[choice.column]);
    assert outcome.Fit? && outcome.fitted == choice.fit;
  }

  lemma HistoryGrows(
      exp: real -> real, m: TrainingMatrix, kernel: Kernel, objective: Objective,
      result: BoostResult, trace: seq<seq<real>>, z: seq<real>, choice: Choice, h: seq<real>)
    requires IsExp(exp) && KernelContract(kernel)
    requires History(exp, m, kernel, objective, result, trace, z)
    requires FirstBest(m, kernel, objective, trace[|trace| - 1], result.selectedFactorIds, |m.columns|, choice)
    requires choice.column < |m.columns| && |choice.fit.predict(m.columns[choice.column])| == |m.labels|
    requires AllFinite(choice.fit.predict(m.columns[choice.column])) && h == Values(choice.fit.predict(m.columns[choice.column]))
    ensures |trace[|trace| - 1]| == |m.labels| == |h|
    ensures var u := ExpReweight(exp, trace[|trace| - 1], m.labels, h);
            Sum(u) > 0.0 && Simplex(Renormalize(u))
            && History(exp, m, kernel, objective, AddRound(result, choice), trace + [Renormalize(u)], z + [Sum(u)])
  {
    hide IsExp, FirstBest, Telescopes, SelectedAt, FiniteOnTraining, Sum, KernelContract, Simplex;
    var n, w := |result.rounds|, trace[|trace| - 1];
    assert Simplex(trace[n]) && Telescopes(exp, m, result.rounds[..n], trace[n], z[..n]);
    assert result.rounds[..n] == result.rounds && z[..n] == z;
    TelescopesLength(exp, m, result.rounds, w, z);
    ChoiceFacts(m, kernel, objective, w, result.selectedFactorIds, choice);
    TelescopeStep(exp, m, result.rounds, choice.fit, choice.column, h, w, z);
    var u := ExpReweight(exp, w, m.labels, h);
    var w' := Renormalize(u);
    NormalizedSimplex(exp, w, m.labels, h);
    var after, trace', z' := AddRound(result, choice), trace + [w'], z + [Sum(u)];
    forall r | 0 <= r <= n + 1
      ensures Simplex(trace'[r])
      ensures Telescopes(exp, m, after.rounds[..r], trace'[r], z'[..r])
    {
      if r <= n {
        assert after.rounds[..r] == result.rounds[..r] && z'[..r] == z[..r];
        assert Simplex(trace[r]) && Telescopes(exp, m, result.rounds[..r], trace[r], z[..r]);
      } else {
        assert after.rounds[..r] == after.rounds && z'[..r] == z';
      }
    }
    forall r | 0 <= r < n + 1 ensures SelectedAt(m, kernel, objective, after, trace', r) {
      if r < n {
        SelectedStays(m, kernel, objective, result, trace, choice, w', r);
      } else {
        SelectedNow(m, kernel, objective, result, trace, choice, w');
      }
    }
  }

  lemma TelescopesLength(exp: real -> real, m: TrainingMatrix, rounds: seq<FittedFactor>, w: seq<real>, z: seq<real>)
    requires ValidMatrix(m) && KnownRounds(rounds, m.factorIds) && RoundsFit(rounds)
    requires Telescopes(exp, m, rounds, w, z)
    ensures |w| == |m.labels| > 0
  {
  }

  lemma NormalizedSimplex(exp: real -> real, w: seq<real>, labels: seq<int>, h: seq<real>)
    requires IsExp(exp) && Simplex(w) && |w| == |labels| == |h| > 0
    ensures Sum(ExpReweight(exp, w, labels, h)) > 0.0
    ensures Simplex(Renormalize(ExpReweight(exp, w, labels, h)))
  {
    hide IsExp, Times, Sum, ExpReweight, Renormalize;
    ReweightPositive(exp, w, labels, h);
    RenormalizeSimplex(ExpReweight(exp, w, labels, h));
  }

  /** The scan stops, under these weights and this selection so far. */
  ghost predicate StopsHere(m: TrainingMatrix, kernel: Kernel, objective: Objective, weights: seq<real>, chosen: seq<string>)
    requires |m.columns| == |m.factorIds|
  {
    exists c :: HaltsAt(m, kernel, objective, weights, chosen, c, Stop)
  }

  /** Why the next round cannot be completed. */
  ghost predicate FailsHere(
      m: TrainingMatrix, kernel: Kernel, objective: Objective, weights: seq<real>, chosen: seq<string>, e: BoostingError)
    requires |m.columns| == |m.factorIds|
  {
    match e
    case NonFiniteScore => exists c :: HaltsAt(m, kernel, objective, weights, chosen, c, BadScore)
    case NoEligibleCandidate => forall c :: 0 <= c < |m.columns| ==> Consider(m, kernel, objective, weights, chosen, c).Ineligible?
    case NonFinitePrediction =>
      exists choice :: FirstBest(m, kernel, objective, weights, chosen, |m.columns|, choice)
                       && !AllFinite(choice.fit.predict(m.columns[choice.column]))
    case _ => false
  }

  /** Training was refused after some completed rounds, for what the next one met. */
  ghost predicate RefusedAfter(
      exp: real -> real, m: TrainingMatrix, kernel: Kernel, objective: Objective, nRounds: int,
      completed: BoostResult, trace: seq<seq<real>>, z: seq<real>, e: BoostingError)
  {
    && |completed.rounds| < nRounds
    && History(exp, m, kernel, objective, completed, trace, z)
    && FailsHere(m, kernel, objective, trace[|trace| - 1], completed.selectedFactorIds, e)
  }

  /** Trains one strong classifier. `trace` is what the weight observer is shown: the weights at the start
      and after every round. The refusals for non-positive mass and for weights off the simplex are unreachable. */
  method Boost(exp: real -> real, m: TrainingMatrix, kernel: Kernel, objective: Objective, nRounds: int)
    returns (r: Result<BoostResult, BoostingError>, trace: seq<seq<real>>, normalizers: seq<real>)
    requires ValidMatrix(m) && KernelContract(kernel) && IsExp(exp)
    ensures nRounds <= 0 ==> r == Failure(BadRoundCount)
    ensures nRounds > 0 && r.Failure? ==>
              exists completed :: RefusedAfter(exp, m, kernel, objective, nRounds, completed, trace, normalizers, r.error)
    ensures r.Success? ==> History(exp, m, kernel, objective, r.value, trace, normalizers)
    ensures r.Success? ==> trace[0] == Uniform(|m.labels|)
    ensures r.Success? ==> |r.value.rounds| <= nRounds
    ensures r.Success? && |r.value.rounds| < nRounds ==>
              StopsHere(m, kernel, objective, trace[|trace| - 1], r.value.selectedFactorIds)
  {
    hide IsExp, KernelContract, History, FirstBest, Sum, Times;
    trace, normalizers := [], [];
    if nRounds <= 0 {
      return Failure(BadRoundCount), trace, normalizers;
    }
    var weights := Uniform(|m.labels|);
    trace := [weights];
    var result := BoostResult([], [], []);
    HistoryStarts(exp, m, kernel, objective);
    for round := 0 to nRounds
      invariant |result.rounds| == round == |trace| - 1
      invariant trace[round] == weights && trace[0] == Uniform(|m.labels|)
      invariant |weights| == |m.labels|
      invariant History(exp, m, kernel, objective, result, trace, normalizers)
    {
      var outcome := ScanCandidates(m, kernel, objective, weights, result.selectedFactorIds);
      match outcome
      case ScoreError =>
        assert RefusedAfter(exp, m, kernel, objective, nRounds, result, trace, normalizers, NonFiniteScore);
        return Failure(NonFiniteScore), trace, normalizers;
      case NoCandidate =>
        assert RefusedAfter(exp, m, kernel, objective, nRounds, result, trace, normalizers, NoEligibleCandidate);
        return Failure(NoEligibleCandidate), trace, normalizers;
      case Stopped => return Success(result), trace, normalizers;
      case Best(choice) =>
        assert choice.column < |m.columns| && |choice.fit.predict(m.columns[choice.column])| == |m.labels| by {
          ChoiceFacts(m, kernel, objective, weights, result.selectedFactorIds, choice);
        }
        var h := choice.fit.predict(m.columns[choice.column]);
        if !AllFinite(h) {
          assert RefusedAfter(exp, m, kernel, objective, nRounds, result, trace, normalizers, NonFinitePrediction);
          return Failure(NonFinitePrediction), trace, normalizers;
        }
        HistoryGrows(exp, m, kernel, objective, result, trace, normalizers, choice, Values(h));
        var updated := ExpReweight(exp, weights, m.labels, Values(h));
        var total := Sum(updated);
        if total <= 0.0 {
          assert false;
        }
        weights := Renormalize(updated);
        if !Positive(weights) || Abs(Sum(weights) - 1.0) >= SIMPLEX_ATOL {
          assert false;
        }
        result := AddRound(result, choice);
        trace := trace + [weights];
        normalizers := normalizers + [total];
    }
    r := Success(result);
  }

  lemma HistoryStarts(exp: real -> real, m: TrainingMatrix, kernel: Kernel, objective: Objective)
    requires ValidMatrix(m) && IsExp(exp)
    ensures History(exp, m, kernel, objective, BoostResult([], [], []), [Uniform(|m.labels|)], [])
  {
    hide IsExp, Sum;
    UniformStarts(exp, m);
  }

  // ---------------------------------------------------------------- the training-error bound

  /** 1 for a row the strong classifier gets wrong or abstains on, else 0. */
  ghost function Mistakes(m: TrainingMatrix, rounds: seq<FittedFactor>): (e: seq<real>)
    requires ValidMatrix(m) && KnownRounds(rounds, m.factorIds) && RoundsFit(rounds)
    ensures |e| == |m.labels|
  {
    seq(|m.labels|, i requires 0 <= i < |m.labels| => if Margin(m, rounds, i) <= 0.0 then 1.0 else 0.0)
  }

  /** The fraction of training rows with non-positive margin is at most the product of the normalisers. */
  lemma TrainingErrorBound(
      exp: real -> real, m: TrainingMatrix, kernel: Kernel, objective: Objective,
      result: BoostResult, trace: seq<seq<real>>, z: seq<real>)
    requires IsExp(exp) && History(exp, m, kernel, objective, result, trace, z)
    ensures Sum(Mistakes(m, result.rounds)) / |m.labels| as real <= Product(z)
  {
    hide IsExp, FirstBest, SelectedAt, FiniteOnTraining, Sum, Margin, Product, Simplex, Telescopes;
    var n := |result.rounds|;
    assert Simplex(trace[n]) && Telescopes(exp, m, result.rounds[..n], trace[n], z[..n]);
    assert result.rounds[..n] == result.rounds && z[..n] == z;
    BoundFromTelescope(exp, m, result.rounds, trace[n], z);
  }

  lemma MistakeCost(exp: real -> real, margin: real, base: real)
    requires IsExp(exp) && base > 0.0
    ensures (if margin <= 0.0 then base else 0.0) <= Times(base, exp(-margin))
  {
    var e := exp(-margin);
    if margin <= 0.0 {
      assert -margin >= 0.0 && e >= 1.0;
    }
    if margin <= 0.0 && e > 1.0 {
      ProductPositive(base, e - 1.0);
      assert Times(base, e - 1.0) == Times(base, e) - base;
    } else if margin > 0.0 {
      ProductPositive(base, e);
    }
  }

  lemma BoundFromTelescope(exp: real -> real, m: TrainingMatrix, rounds: seq<FittedFactor>, w: seq<real>, z: seq<real>)
    requires ValidMatrix(m) && KnownRounds(rounds, m.factorIds) && RoundsFit(rounds)
    requires IsExp(exp) && Simplex(w) && Telescopes(exp, m, rounds, w, z)
    ensures Sum(Mistakes(m, rounds)) / |m.labels| as real <= Product(z)
  {
    hide IsExp, Sum, Margin, Product, Times;
    var n := |m.labels|;
    var base := 1.0 / n as real;
    var costs := seq(n, i requires 0 <= i < n => Times(Product(z), w[i]));
    var charges := seq(n, i requires 0 <= i < n => Times(base, Mistakes(m, rounds)[i]));
    forall i | 0 <= i < n ensures charges[i] <= costs[i] {
      MistakeCost(exp, Margin(m, rounds, i), base);
      Commute(w[i], Product(z));
      TimesUnit(base);
    }
    SumScale(Product(z), w, costs);
    SumScale(base, Mistakes(m, rounds), charges);
    SumMonotone(charges, costs);
    TimesUnit(Product(z));
    DivideIsTimes(Sum(Mistakes(m, rounds)), n as real);
  }

  lemma TimesUnit(x: real)
    ensures Times(x, 1.0) == x && Times(x, 0.0) == 0.0
  {
  }

  lemma DivideIsTimes(x: real, n: real)
    requires n > 0.0
    ensures x / n == Times(1.0 / n, x)
  {
    var inv := 1.0 / n;
    DivideThrough(1.0, n);
    DivideThrough(x, n);
    Regroup2(x / n, n, inv);
  }

  /** After training, what `PredictBoosted` returns on the training panel fixes every weight. */
  lemma WeightsFromPrediction(
      exp: real -> real, m: TrainingMatrix, kernel: Kernel, objective: Objective,
      result: BoostResult, trace: seq<seq<real>>, z: seq<real>, predicted: seq<Option<real>>)
    requires History(exp, m, kernel, objective, result, trace, z)
    requires |predicted| == |m.labels|
    requires forall i :: 0 <= i < |predicted| ==> predicted[i] == StrongScore(result.rounds, m.factorIds, m.columns, i)
    ensures forall i :: 0 <= i < |predicted| ==>
              && predicted[i].Some? && |trace[|trace| - 1]| == |predicted|
              && Times(trace[|trace| - 1][i], Product(z))
                 == Times(1.0 / |predicted| as real, exp(-(m.labels[i] as real * predicted[i].value)))
  {
    hide FirstBest, SelectedAt, Sum, Product, Simplex;
    var n := |result.rounds|;
    assert Telescopes(exp, m, result.rounds[..n], trace[n], z[..n]);
    assert result.rounds[..n] == result.rounds && z[..n] == z;
  }
}

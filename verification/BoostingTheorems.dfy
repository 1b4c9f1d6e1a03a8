/** What the boosting loop selects, and why it stops or is refused, in terms of the kernel's fits and their scores. */
module BoostingTheorems {
  import opened Wrappers
  import opened Boosting

  /** A column may be used: repeats are allowed, or its factor has not been selected. */
  predicate Eligible(m: TrainingMatrix, objective: Objective, chosen: seq<string>, c: nat)
    requires c < |m.factorIds|
  {
    objective.allowRepeats || m.factorIds[c] !in chosen
  }

  /** What the kernel makes of a column under some weights. */
  function Fitted(m: TrainingMatrix, kernel: Kernel, weights: seq<real>, c: nat): KernelOutcome
    requires c < |m.columns| == |m.factorIds|
  {
    kernel(m.columns[c], m.labels, weights, m.factorIds[c])
  }

  lemma RoundColumn(
      exp: real -> real, m: TrainingMatrix, kernel: Kernel, objective: Objective,
      result: BoostResult, trace: seq<seq<real>>, z: seq<real>, r: nat)
    returns (column: nat)
    requires History(exp, m, kernel, objective, result, trace, z) && r < |result.rounds|
    ensures column < |m.columns| == |m.factorIds| && m.factorIds[column] == result.selectedFactorIds[r]
    ensures FirstBest(m, kernel, objective, trace[r], result.selectedFactorIds[..r], |m.columns|,
                      Choice(result.rounds[r], result.selectionScores[r], column))
  {
    hide FirstBest, Telescopes, FiniteOnTraining;
    assert SelectedAt(m, kernel, objective, result, trace, r);
    column :| 0 <= column < |m.columns| && m.factorIds[column] == result.selectedFactorIds[r]
              && FirstBest(m, kernel, objective, trace[r], result.selectedFactorIds[..r], |m.columns|,
                           Choice(result.rounds[r], result.selectionScores[r], column));
  }

  /**
   * Every completed round took, among all columns the kernel could fit under its opening weights, one
   * of the least score when minimizing and of the greatest when maximizing, and the earliest of those.
   */
  lemma RoundsTakeTheBest(
      exp: real -> real, m: TrainingMatrix, kernel: Kernel, objective: Objective,
      result: BoostResult, trace: seq<seq<real>>, z: seq<real>, r: nat)
    returns (column: nat)
    requires History(exp, m, kernel, objective, result, trace, z) && r < |result.rounds|
    ensures column < |m.columns| == |m.factorIds| && m.factorIds[column] == result.selectedFactorIds[r]
    ensures |trace| > r && Eligible(m, objective, result.selectedFactorIds[..r], column)
    ensures Fitted(m, kernel, trace[r], column) == Fit(result.rounds[r])
    ensures |result.selectionScores| > r && objective.score(result.rounds[r], m, trace[r]) == Some(result.selectionScores[r])
    ensures forall c :: 0 <= c < |m.columns| && Eligible(m, objective, result.selectedFactorIds[..r], c) ==>
              !Fitted(m, kernel, trace[r], c).StopTraining?
    ensures forall c :: 0 <= c < |m.columns| && Eligible(m, objective, result.selectedFactorIds[..r], c)
                        && Fitted(m, kernel, trace[r], c).Fit? ==>
              var score := objective.score(Fitted(m, kernel, trace[r], c).fitted, m, trace[r]);
              && score.Some?
              && (objective.minimize ==>
                    result.selectionScores[r] <= score.value && (c < column ==> result.selectionScores[r] < score.value))
              && (!objective.minimize ==>
                    result.selectionScores[r] >= score.value && (c < column ==> result.selectionScores[r] > score.value))
  {
    hide Telescopes, FiniteOnTraining, SelectedAt;
    column := RoundColumn(exp, m, kernel, objective, result, trace, z, r);
    var chosen, best := result.selectedFactorIds[..r], Choice(result.rounds[r], result.selectionScores[r], column);
    FirstBestMeans(m, kernel, objective, trace[r], chosen, best);
  }

  lemma FirstBestMeans(
      m: TrainingMatrix, kernel: Kernel, objective: Objective, weights: seq<real>, chosen: seq<string>, best: Choice)
    requires |m.columns| == |m.factorIds| && FirstBest(m, kernel, objective, weights, chosen, |m.columns|, best)
    ensures best.column < |m.columns| && Eligible(m, objective, chosen, best.column)
    ensures Fitted(m, kernel, weights, best.column) == Fit(best.fit) && objective.score(best.fit, m, weights) == Some(best.score)
    ensures forall c :: 0 <= c < |m.columns| && Eligible(m, objective, chosen, c) ==>
              && !Fitted(m, kernel, weights, c).StopTraining?
              && (Fitted(m, kernel, weights, c).Fit? ==>
                    var score := objective.score(Fitted(m, kernel, weights, c).fitted, m, weights);
                    && score.Some?
                    && (objective.minimize ==> best.score <= score.value && (c < best.column ==> best.score < score.value))
                    && (!objective.minimize ==> best.score >= score.value && (c < best.column ==> best.score > score.value)))
  {
    forall c | 0 <= c < |m.columns| && Eligible(m, objective, chosen, c)
      ensures !Fitted(m, kernel, weights, c).StopTraining?
      ensures Fitted(m, kernel, weights, c).Fit? ==>
                var score := objective.score(Fitted(m, kernel, weights, c).fitted, m, weights);
                && score.Some?
                && (objective.minimize ==> best.score <= score.value && (c < best.column ==> best.score < score.value))
                && (!objective.minimize ==> best.score >= score.value && (c < best.column ==> best.score > score.value))
    {
      var candidate := Consider(m, kernel, objective, weights, chosen, c);
      assert !candidate.Stop? && !candidate.BadScore?;
    }
  }

  /** Training stops early exactly for a usable column on which the kernel says so, before any that scores badly. */
  lemma StopMeans(m: TrainingMatrix, kernel: Kernel, objective: Objective, weights: seq<real>, chosen: seq<string>)
    requires |m.columns| == |m.factorIds|
    ensures StopsHere(m, kernel, objective, weights, chosen) <==>
              exists c :: 0 <= c < |m.columns| && HaltsFor(m, kernel, objective, weights, chosen, c, true)
  {
    if StopsHere(m, kernel, objective, weights, chosen) {
      var c :| HaltsAt(m, kernel, objective, weights, chosen, c, Stop);
      HaltMeans(m, kernel, objective, weights, chosen, c);
    }
    if c :| 0 <= c < |m.columns| && HaltsFor(m, kernel, objective, weights, chosen, c, true) {
      HaltMeans(m, kernel, objective, weights, chosen, c);
      assert HaltsAt(m, kernel, objective, weights, chosen, c, Stop);
    }
  }

  /** Column c makes the kernel stop the training, or is fitted with a score that is not finite. */
  predicate Halting(m: TrainingMatrix, kernel: Kernel, objective: Objective, weights: seq<real>, chosen: seq<string>, c: nat, stop: bool)
    requires c < |m.columns| == |m.factorIds|
  {
    && Eligible(m, objective, chosen, c)
    && match Fitted(m, kernel, weights, c)
       case StopTraining => stop
       case SkipAlpha => false
       case Fit(f) => !stop && objective.score(f, m, weights).None?
  }

  /** Column c is the first to halt the scan either way. */
  ghost predicate HaltsFor(
      m: TrainingMatrix, kernel: Kernel, objective: Objective, weights: seq<real>, chosen: seq<string>, c: nat, stop: bool)
    requires c < |m.columns| == |m.factorIds|
  {
    && Halting(m, kernel, objective, weights, chosen, c, stop)
    && forall d, s :: 0 <= d < c ==> !Halting(m, kernel, objective, weights, chosen, d, s)
  }

  lemma ConsiderHalts(m: TrainingMatrix, kernel: Kernel, objective: Objective, weights: seq<real>, chosen: seq<string>, c: nat)
    requires c < |m.columns| == |m.factorIds|
    ensures Consider(m, kernel, objective, weights, chosen, c) == Stop <==> Halting(m, kernel, objective, weights, chosen, c, true)
    ensures Consider(m, kernel, objective, weights, chosen, c) == BadScore <==> Halting(m, kernel, objective, weights, chosen, c, false)
  {
  }

  lemma HaltMeans(m: TrainingMatrix, kernel: Kernel, objective: Objective, weights: seq<real>, chosen: seq<string>, c: nat)
    requires c < |m.columns| == |m.factorIds|
    ensures HaltsAt(m, kernel, objective, weights, chosen, c, Stop) <==> HaltsFor(m, kernel, objective, weights, chosen, c, true)
    ensures HaltsAt(m, kernel, objective, weights, chosen, c, BadScore) <==> HaltsFor(m, kernel, objective, weights, chosen, c, false)
  {
    hide Consider, Halting;
    forall d | 0 <= d <= c
      ensures Consider(m, kernel, objective, weights, chosen, d) == Stop <==> Halting(m, kernel, objective, weights, chosen, d, true)
      ensures Consider(m, kernel, objective, weights, chosen, d) == BadScore <==> Halting(m, kernel, objective, weights, chosen, d, false)
    {
      ConsiderHalts(m, kernel, objective, weights, chosen, d);
    }
  }

  /**
   * Why a round is refused: a usable column was fitted with a score that is not finite before any stopped
   * the training; or every column was used up or skipped; or the best fit does not predict finite values.
   */
  lemma RefusalMeans(
      m: TrainingMatrix, kernel: Kernel, objective: Objective, weights: seq<real>, chosen: seq<string>, e: BoostingError)
    requires |m.columns| == |m.factorIds| && FailsHere(m, kernel, objective, weights, chosen, e)
    ensures e == NonFiniteScore ==>
              exists c :: 0 <= c < |m.columns| && HaltsFor(m, kernel, objective, weights, chosen, c, false)
    ensures e == NoEligibleCandidate ==>
              forall c :: 0 <= c < |m.columns| && Eligible(m, objective, chosen, c) ==> Fitted(m, kernel, weights, c) == SkipAlpha
    ensures e == NonFinitePrediction ==>
              exists c, i :: 0 <= c < |m.columns| && Eligible(m, objective, chosen, c) && Fitted(m, kernel, weights, c).Fit?
                             && PredictsNothingAt(Fitted(m, kernel, weights, c).fitted, m.columns[c], i)
    ensures e == NonFiniteScore || e == NoEligibleCandidate || e == NonFinitePrediction
  {
    match e
    case NonFiniteScore =>
      var c :| HaltsAt(m, kernel, objective, weights, chosen, c, BadScore);
      HaltMeans(m, kernel, objective, weights, chosen, c);
    case NoEligibleCandidate =>
      forall c | 0 <= c < |m.columns| && Eligible(m, objective, chosen, c) ensures Fitted(m, kernel, weights, c) == SkipAlpha {
        assert Consider(m, kernel, objective, weights, chosen, c).Ineligible?;
      }
    case NonFinitePrediction =>
      var choice :| FirstBest(m, kernel, objective, weights, chosen, |m.columns|, choice)
                    && !AllFinite(choice.fit.predict(m.columns[choice.column]));
      FirstBestMeans(m, kernel, objective, weights, chosen, choice);
      var h := choice.fit.predict(m.columns[choice.column]);
      var i :| 0 <= i < |h| && h[i].None?;
      assert PredictsNothingAt(choice.fit, m.columns[choice.column], i);
    case _ =>
  }

  predicate PredictsNothingAt(f: FittedFactor, cells: seq<Cell>, i: nat) {
    var h := f.predict(cells);
    i < |h| && h[i].None?
  }
}

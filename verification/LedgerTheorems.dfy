/** What every successful run of the ledger satisfies. */
module LedgerTheorems {
  import opened Sums
  import opened Ordering
  import opened Wrappers
  import opened Ledger

  // ---------------------------------------------------------------- inside one period

  /** What the weights earned in currency: weight * opening NAV * (factor - 1), name by name. */
  ghost function EarnedCurrency(weights: map<Id, real>, nav: real, factors: map<Id, real>): map<Id, real> {
    map k | k in factors :: Times(Times(At(weights, k), nav), factors[k] - 1.0)
  }

  /** Every held value is weight * opening NAV * factor, and only non-zero positions are held. */
  ghost predicate PositionsMatch(r: Running, weights: map<Id, real>, nav: real) {
    && r.factors.Keys == weights.Keys
    && r.book.positions.Keys <= weights.Keys
    && (forall k :: k in r.factors ==> r.factors[k] >= 0.0)
    && (forall k :: k in r.book.positions ==>
          r.book.positions[k] != 0.0 && r.book.positions[k] == Times(Times(weights[k], nav), r.factors[k]))
  }

  /** The relation between the currency path and the factor path, after any number of steps. */
  ghost predicate PathsAgree(r: Running, weights: map<Id, real>, nav: real, cost: real) {
    && PositionsMatch(r, weights, nav)
    && r.book.positions.Keys !! r.book.banned
    && Nav(r.book) == nav - cost + Sum(r.pnls)
    && MapSum(EarnedCurrency(weights, nav, r.factors)) == Sum(r.pnls)
  }

  /** Trading is self-financing: the cash spent is exactly what the positions gain. */
  lemma SelfFinancing(positions: map<Id, real>, targets: map<Id, real>)
    ensures MapSum(TradeList(positions, targets)) == MapSum(targets) - MapSum(positions)
  {
    var all := positions.Keys + targets.Keys;
    var before := map k | k in all :: At(positions, k);
    var after := map k | k in all :: At(targets, k);
    var delta := map k | k in all :: Delta(positions, targets, k);
    MapSumDropZeros(before, positions);
    MapSumDropZeros(after, targets);
    MapSumDropZeros(delta, TradeList(positions, targets));
    MapSumAdd(before, delta, after);
  }

  lemma OpenAgrees(run: Run, period: RebalancePeriod, model: CostModel)
    requires ValidPeriod(period)
    requires OpenPeriod(run, period, model).Success?
    ensures PathsAgree(OpenPeriod(run, period, model).value, period.target.weights, Nav(run.book),
                       model(Request(run.book, period)).cost)
  {
    hide Times, MapSum, PositionsMatch;
    var weights, nav := period.target.weights, Nav(run.book);
    var r := OpenPeriod(run, period, model).value;
    SelfFinancing(run.book.positions, r.book.positions);
    NothingEarned(weights, nav, r.factors);
    OpenPositions(run, period, model);
  }

  lemma OpenPositions(run: Run, period: RebalancePeriod, model: CostModel)
    requires ValidPeriod(period)
    requires OpenPeriod(run, period, model).Success?
    ensures PositionsMatch(OpenPeriod(run, period, model).value, period.target.weights, Nav(run.book))
  {
    hide Times, MapSum, Request;
    var weights, nav := period.target.weights, Nav(run.book);
    forall k | k in weights
      ensures Times(weights[k], nav) != 0.0 && Times(weights[k], nav) == Times(Times(weights[k], nav), 1.0)
    {
      NonZeroProduct(weights[k], nav);
    }
  }

  lemma NonZeroProduct(w: real, nav: real)
    requires w != 0.0 && nav > 0.0
    ensures Times(w, nav) != 0.0 && Times(Times(w, nav), 1.0) == Times(w, nav)
  {
  }

  lemma NothingEarned(weights: map<Id, real>, nav: real, factors: map<Id, real>)
    requires forall k :: k in factors ==> factors[k] == 1.0
    ensures MapSum(EarnedCurrency(weights, nav, factors)) == 0.0
  {
    MapSumConstant(EarnedCurrency(weights, nav, factors), 0.0);
    TimesByZero(|EarnedCurrency(weights, nav, factors).Keys| as real);
  }

  /** The positions' value after a step is what it was, plus the step's profit. */
  lemma MovedValue(positions: map<Id, real>, step: MarkStep)
    ensures MapSum(Moved(positions, step)) == MapSum(positions) + MapSum(Contributions(positions, step))
  {
    MapSumAdd(positions, Contributions(positions, step), Moved(positions, step));
  }

  /** Closing positions and dropping zero ones moves value to cash but creates none. */
  lemma ClosedValue(moved: map<Id, real>, step: MarkStep)
    ensures MapSum(moved) == MapSum(Closed(moved, step)) + MapSum(NonZero(Surviving(moved, step)))
  {
    MapSumSplit(moved, Closed(moved, step), Surviving(moved, step));
    MapSumDropZeros(Surviving(moved, step), NonZero(Surviving(moved, step)));
  }

  lemma EarnedStep(value: real, factor: real, ret: real)
    ensures Times(value, Times(factor, 1.0 + ret) - 1.0) == Times(value, factor - 1.0) + Times(Times(value, factor), ret)
  {
  }

  /** A step adds to the factor path exactly the profit of the currency path. */
  lemma EarnedGrows(weights: map<Id, real>, nav: real, r: Running, step: MarkStep)
    requires r.factors.Keys == weights.Keys && r.book.positions.Keys <= weights.Keys
    requires forall k :: k in r.book.positions ==> r.book.positions[k] == Times(Times(weights[k], nav), r.factors[k])
    ensures MapSum(EarnedCurrency(weights, nav, Compounded(r.factors, r.book.positions.Keys, step)))
         == MapSum(EarnedCurrency(weights, nav, r.factors)) + MapSum(Contributions(r.book.positions, step))
  {
    hide Times, MapSum;
    var held := r.book.positions;
    var padded := map k | k in weights :: At(Contributions(held, step), k);
    MapSumDropZeros(padded, Contributions(held, step));
    forall k | k in weights
      ensures EarnedCurrency(weights, nav, Compounded(r.factors, held.Keys, step))[k]
           == EarnedCurrency(weights, nav, r.factors)[k] + padded[k]
    {
      if k in held {
        EarnedStep(Times(weights[k], nav), r.factors[k], At(step.stepReturns, k));
      }
    }
    MapSumAdd(EarnedCurrency(weights, nav, r.factors), padded,
              EarnedCurrency(weights, nav, Compounded(r.factors, held.Keys, step)));
  }

  lemma GrowthNonNegative(step: MarkStep, k: Id, factor: real)
    requires ValidStep(step) && factor >= 0.0
    ensures Growth(step, k) >= 0.0 && Times(factor, Growth(step, k)) >= 0.0
  {
    assert Growth(step, k) >= 0.0;
  }

  lemma MarkValue(r: Running, step: MarkStep)
    ensures Nav(AfterMark(r, step)) == Nav(r.book) + MapSum(Contributions(r.book.positions, step))
  {
    hide MapSum, Moved, Contributions, Closed, Surviving, NonZero;
    MovedValue(r.book.positions, step);
    ClosedValue(Moved(r.book.positions, step), step);
  }

  lemma MarkPositions(r: Running, step: MarkStep, index: nat, weights: map<Id, real>, nav: real)
    requires ValidStep(step) && PositionsMatch(r, weights, nav)
    requires Mark(r, step, index).Success?
    ensures PositionsMatch(Mark(r, step, index).value, weights, nav)
  {
    hide Times, MapSum, Growth, RowOf, Records, Moved, Closed, Surviving, NonZero, Contributions, AfterMark, Nav;
    var s := Mark(r, step, index).value;
    MarkFactors(r, step);
    forall k | k in s.book.positions
      ensures k in weights && s.book.positions[k] != 0.0
      ensures s.book.positions[k] == Times(Times(weights[k], nav), s.factors[k])
    {
      KeptPosition(r, step, k);
      KeptValue(r, step, k);
      Associate(Times(weights[k], nav), r.factors[k], Growth(step, k));
    }
  }

  lemma KeptPosition(r: Running, step: MarkStep, k: Id)
    requires k in AfterMark(r, step).positions
    ensures k in r.book.positions
  {
  }

  lemma KeptValue(r: Running, step: MarkStep, k: Id)
    requires k in AfterMark(r, step).positions && k in r.factors
    ensures k in r.book.positions && k !in step.terminated
    ensures AfterMark(r, step).positions[k] == Times(r.book.positions[k], Growth(step, k)) != 0.0
    ensures Compounded(r.factors, r.book.positions.Keys, step)[k] == Times(r.factors[k], Growth(step, k))
  {
    hide Times, MapSum, Growth;
  }

  lemma MarkFactors(r: Running, step: MarkStep)
    requires ValidStep(step)
    requires forall k :: k in r.factors ==> r.factors[k] >= 0.0
    ensures forall k :: k in r.factors ==> Compounded(r.factors, r.book.positions.Keys, step)[k] >= 0.0
  {
    hide Times, Growth;
    forall k | k in r.factors ensures Compounded(r.factors, r.book.positions.Keys, step)[k] >= 0.0 {
      GrowthNonNegative(step, k, r.factors[k]);
    }
  }

  lemma MarkAgrees(r: Running, step: MarkStep, index: nat, weights: map<Id, real>, nav: real, cost: real)
    requires ValidStep(step)
    requires PathsAgree(r, weights, nav, cost)
    requires Mark(r, step, index).Success?
    ensures PathsAgree(Mark(r, step, index).value, weights, nav, cost)
  {
    hide Times, MapSum, Growth, Sum, Contributions, EarnedCurrency, RowOf, Nav, Records, PositionsMatch;
    MarkValue(r, step);
    MarkPositions(r, step, index, weights, nav);
    assert MapSum(EarnedCurrency(weights, nav, Compounded(r.factors, r.book.positions.Keys, step)))
        == MapSum(EarnedCurrency(weights, nav, r.factors)) + MapSum(Contributions(r.book.positions, step)) by {
      PositionsUnfold(r, weights, nav);
      EarnedGrows(weights, nav, r, step);
    }
    SumAppend(r.pnls, MapSum(Contributions(r.book.positions, step)));
  }

  lemma PositionsUnfold(r: Running, weights: map<Id, real>, nav: real)
    requires PositionsMatch(r, weights, nav)
    ensures r.factors.Keys == weights.Keys && r.book.positions.Keys <= weights.Keys
    ensures forall k :: k in r.book.positions ==> r.book.positions[k] == Times(Times(weights[k], nav), r.factors[k])
  {
  }

  lemma {:induction false} MarkToAgrees(
      r: Running, steps: seq<MarkStep>, n: nat, index: nat, weights: map<Id, real>, nav: real, cost: real)
    requires n <= |steps| && forall i :: 0 <= i < |steps| ==> ValidStep(steps[i])
    requires PathsAgree(r, weights, nav, cost)
    requires MarkTo(r, steps, n, index).Success?
    ensures PathsAgree(MarkTo(r, steps, n, index).value, weights, nav, cost)
  {
    hide PathsAgree, Mark;
    if n > 0 {
      MarkToAgrees(r, steps, n - 1, index, weights, nav, cost);
      MarkAgrees(MarkTo(r, steps, n - 1, index).value, steps[n - 1], index, weights, nav, cost);
    }
  }

  // ---------------------------------------------------------------- the compound factor of a name

  ghost function FrozenBy(steps: seq<MarkStep>, n: nat): set<Id>
    requires n <= |steps|
  {
    if n == 0 then {} else FrozenBy(steps, n - 1) + steps[n - 1].terminated
  }

  /** The product of a name's growth up to and including its terminal step. */
  ghost function PathFactor(steps: seq<MarkStep>, n: nat, k: Id): real
    requires n <= |steps|
  {
    if n == 0 then 1.0
    else if k in FrozenBy(steps, n - 1) then PathFactor(steps, n - 1, k)
    else Times(PathFactor(steps, n - 1, k), Growth(steps[n - 1], k))
  }

  /** The ledger's factor is the path factor, also for names it no longer holds. */
  ghost predicate FactorsMatch(r: Running, steps: seq<MarkStep>, n: nat, weights: map<Id, real>)
    requires n <= |steps|
  {
    && r.factors.Keys == weights.Keys
    && forall k :: k in weights ==>
         && r.factors[k] == PathFactor(steps, n, k)
         && (k in r.book.positions <==> k !in FrozenBy(steps, n) && r.factors[k] != 0.0)
  }

  lemma ProductSign(value: real, factor: real)
    requires value != 0.0
    ensures Times(value, factor) != 0.0 <==> factor != 0.0
  {
    if factor != 0.0 {
      assert Times(value, factor) / factor == value;
    }
  }

  /** One name through one step. */
  lemma NameThroughStep(r: Running, step: MarkStep, k: Id, w: real, nav: real)
    requires w != 0.0 && nav > 0.0 && k in r.factors
    requires k in r.book.positions ==> r.book.positions[k] == Times(Times(w, nav), r.factors[k])
    ensures var held := k in r.book.positions;
            var factor := Compounded(r.factors, r.book.positions.Keys, step)[k];
            k in AfterMark(r, step).positions <==> held && k !in step.terminated && factor != 0.0
  {
    hide Times, MapSum, Growth;
    if k in r.book.positions {
      NonZeroProduct(w, nav);
      Associate(Times(w, nav), r.factors[k], Growth(step, k));
      ProductSign(Times(w, nav), Times(r.factors[k], Growth(step, k)));
    }
  }

  lemma MarkFactorsMatch(r: Running, steps: seq<MarkStep>, n: nat, index: nat, weights: map<Id, real>, nav: real)
    requires 0 < n <= |steps| && nav > 0.0
    requires forall k :: k in weights ==> weights[k] != 0.0
    requires PositionsMatch(r, weights, nav)
    requires FactorsMatch(r, steps, n - 1, weights)
    requires Mark(r, steps[n - 1], index).Success?
    ensures FactorsMatch(Mark(r, steps[n - 1], index).value, steps, n, weights)
  {
    hide Times, MapSum, Growth, RowOf, Records, AfterMark, Nav, Contributions;
    var step := steps[n - 1];
    var s := Mark(r, step, index).value;
    forall k | k in weights
      ensures s.factors[k] == PathFactor(steps, n, k)
      ensures k in s.book.positions <==> k !in FrozenBy(steps, n) && s.factors[k] != 0.0
    {
      NameThroughStep(r, step, k, weights[k], nav);
      if k !in r.book.positions && k !in FrozenBy(steps, n - 1) {
        TimesByZero(Growth(step, k));
      }
    }
  }

  lemma {:induction false} MarkToFactorsMatch(
      r: Running, steps: seq<MarkStep>, n: nat, index: nat, weights: map<Id, real>, nav: real, cost: real)
    requires n <= |steps| && nav > 0.0
    requires forall i :: 0 <= i < |steps| ==> ValidStep(steps[i])
    requires forall k :: k in weights ==> weights[k] != 0.0
    requires PathsAgree(r, weights, nav, cost)
    requires r.book.positions.Keys == weights.Keys && forall k :: k in r.factors ==> r.factors[k] == 1.0
    requires MarkTo(r, steps, n, index).Success?
    ensures FactorsMatch(MarkTo(r, steps, n, index).value, steps, n, weights)
  {
    hide Mark, PositionsMatch, Nav, EarnedCurrency, MapSum;
    if n > 0 {
      MarkToFactorsMatch(r, steps, n - 1, index, weights, nav, cost);
      MarkToAgrees(r, steps, n - 1, index, weights, nav, cost);
      MarkFactorsMatch(MarkTo(r, steps, n - 1, index).value, steps, n, index, weights, nav);
    } else {
      PositionsUnfold(r, weights, nav);
    }
  }

  // ---------------------------------------------------------------- one whole period

  /** Weight times path return, name by name, over the whole period. */
  ghost function PathReturns(period: RebalancePeriod): map<Id, real> {
    map k | k in period.target.weights ::
      Times(period.target.weights[k], PathFactor(period.steps, |period.steps|, k) - 1.0)
  }

  /** What a reconciliation row promises. */
  ghost predicate RowReconciles(row: PeriodRow, period: RebalancePeriod) {
    && row.navStart > 0.0
    && row.cost >= 0.0 && row.borrow >= 0.0
    && row.netPnl == row.grossPnl - row.cost - row.borrow
    && row.navEnd == row.navStart + row.netPnl
    && row.grossPnl == Times(row.navStart, MapSum(PathReturns(period)))
    && Times(row.portfolioReturn, row.navStart) == row.netPnl
    && row.portfolioReturn == row.checkReturn
    && row.residual == 0.0
  }

  lemma EarnedScales(weights: map<Id, real>, nav: real, factors: map<Id, real>)
    ensures MapSum(EarnedCurrency(weights, nav, factors)) == Times(nav, MapSum(Earned(weights, factors)))
  {
    forall k | k in factors
      ensures EarnedCurrency(weights, nav, factors)[k] == Times(nav, Earned(weights, factors)[k])
    {
      TimesRotates(At(weights, k), nav, factors[k] - 1.0);
    }
    MapSumScale(nav, Earned(weights, factors), EarnedCurrency(weights, nav, factors));
  }

  lemma TimesRotates(w: real, nav: real, x: real)
    ensures Times(Times(w, nav), x) == Times(nav, Times(w, x))
  {
  }

  lemma ReturnAlgebra(nav: real, earned: real, cost: real, borrow: real)
    requires nav > 0.0
    ensures (Times(nav, earned) - cost - borrow) / nav == earned - (cost + borrow) / nav
    ensures Times((Times(nav, earned) - cost - borrow) / nav, nav) == Times(nav, earned) - cost - borrow
  {
    var c := (cost + borrow) / nav;
    assert Times(c, nav) == cost + borrow;
    assert Times(nav, earned) - cost - borrow == Times(earned - c, nav);
  }

  lemma CloseReconciles(r: Running, start: Book, period: RebalancePeriod, charges: Charges, index: nat)
    requires ValidPeriod(period) && Nav(start) > 0.0 && charges.cost >= 0.0 && charges.borrow >= 0.0
    requires PathsAgree(r, period.target.weights, Nav(start), charges.cost)
    requires FactorsMatch(r, period.steps, |period.steps|, period.target.weights)
    ensures RowReconciles(CloseRow(r, start, period, charges, index), period)
    ensures CloseRow(r, start, period, charges, index).navEnd == Nav(r.book) - charges.borrow
  {
    hide Times, MapSum, PathFactor, Request, TargetValues, PositionsMatch, Sum;
    EarnedScales(period.target.weights, Nav(start), r.factors);
    assert Earned(period.target.weights, r.factors) == PathReturns(period);
    ReturnAlgebra(Nav(start), MapSum(PathReturns(period)), charges.cost, charges.borrow);
  }

  /** A period whose hooks and marks succeed always closes, and its row reconciles. */
  lemma PeriodReconciles(run: Run, period: RebalancePeriod, index: nat, model: CostModel)
    requires ValidPeriod(period)
    ensures RunPeriod(run, period, index, model) != Failure(ReconciliationFailure)
    ensures RunPeriod(run, period, index, model).Success? ==>
              var after := RunPeriod(run, period, index, model).value;
              && |after.rows| == |run.rows| + 1 && after.rows[..|run.rows|] == run.rows
              && RowReconciles(after.rows[|run.rows|], period)
              && after.rows[|run.rows|].navStart == Nav(run.book)
              && after.rows[|run.rows|].navEnd == Nav(after.book)
              && after.rows[|run.rows|].index == index
  {
    hide PathsAgree, FactorsMatch, RowReconciles, Mark, Request;
    MarkToErrors(run, period, index, model);
    var start := OpenPeriod(run, period, model);
    if start.Success? && MarkTo(start.value, period.steps, |period.steps|, index).Success? {
      var r := MarkTo(start.value, period.steps, |period.steps|, index).value;
      var charges := model(Request(run.book, period));
      PeriodPaths(run, period, index, model);
      CloseReconciles(r, run.book, period, charges, index);
      RowResidual(CloseRow(r, run.book, period, charges, index), period);
    }
  }

  lemma RowResidual(row: PeriodRow, period: RebalancePeriod)
    requires RowReconciles(row, period)
    ensures row.residual == 0.0
  {
  }

  lemma PeriodPaths(run: Run, period: RebalancePeriod, index: nat, model: CostModel)
    requires ValidPeriod(period)
    requires OpenPeriod(run, period, model).Success?
    requires MarkTo(OpenPeriod(run, period, model).value, period.steps, |period.steps|, index).Success?
    ensures var r := MarkTo(OpenPeriod(run, period, model).value, period.steps, |period.steps|, index).value;
            && PathsAgree(r, period.target.weights, Nav(run.book), model(Request(run.book, period)).cost)
            && FactorsMatch(r, period.steps, |period.steps|, period.target.weights)
  {
    hide PathsAgree, FactorsMatch, Mark, Request, MapSum, Times, MarkTo;
    var weights, nav, cost := period.target.weights, Nav(run.book), model(Request(run.book, period)).cost;
    var start := OpenPeriod(run, period, model).value;
    OpenAgrees(run, period, model);
    MarkToAgrees(start, period.steps, |period.steps|, index, weights, nav, cost);
    MarkToFactorsMatch(start, period.steps, |period.steps|, index, weights, nav, cost);
  }

  lemma {:induction false} MarkToFailure(r: Running, steps: seq<MarkStep>, n: nat, index: nat)
    requires n <= |steps|
    ensures MarkTo(r, steps, n, index) != Failure(ReconciliationFailure)
  {
    hide AfterMark, Contributions, Moved, MapSum, Records, RowOf;
    if n > 0 {
      MarkToFailure(r, steps, n - 1, index);
    }
  }

  lemma MarkToErrors(run: Run, period: RebalancePeriod, index: nat, model: CostModel)
    ensures OpenPeriod(run, period, model) != Failure(ReconciliationFailure)
    ensures OpenPeriod(run, period, model).Success? ==>
              MarkTo(OpenPeriod(run, period, model).value, period.steps, |period.steps|, index) != Failure(ReconciliationFailure)
  {
    hide Request, Mark;
    if OpenPeriod(run, period, model).Success? {
      MarkToFailure(OpenPeriod(run, period, model).value, period.steps, |period.steps|, index);
    }
  }

  // ---------------------------------------------------------------- whole runs

  function NetPnls(rows: seq<PeriodRow>): seq<real> {
    seq(|rows|, i requires 0 <= i < |rows| => rows[i].netPnl)
  }

  /** The NAV at which period i must open: the initial one, or the previous close. */
  ghost function NavBefore(rows: seq<PeriodRow>, initialNav: real, i: nat): real
    requires i <= |rows|
  {
    if i == 0 then initialNav else rows[i - 1].navEnd
  }

  /** Each period opens at the NAV the previous one closed at. */
  ghost predicate Chained(rows: seq<PeriodRow>, initialNav: real, lastNav: real) {
    && (forall i :: 0 <= i < |rows| ==> rows[i].navStart == NavBefore(rows, initialNav, i))
    && lastNav == NavBefore(rows, initialNav, |rows|)
  }

  lemma ChainExtends(rows: seq<PeriodRow>, row: PeriodRow, initialNav: real, nav: real)
    requires Chained(rows, initialNav, nav) && row.navStart == nav
    ensures Chained(rows + [row], initialNav, row.navEnd)
  {
    forall i | 0 <= i <= |rows| ensures NavBefore(rows + [row], initialNav, i) == NavBefore(rows, initialNav, i) {
    }
  }

  lemma ChainFront(rows: seq<PeriodRow>, initialNav: real, nav: real)
    requires Chained(rows, initialNav, nav) && rows != []
    ensures Chained(rows[..|rows| - 1], initialNav, rows[|rows| - 1].navStart)
  {
    var front := rows[..|rows| - 1];
    forall i | 0 <= i <= |front| ensures NavBefore(front, initialNav, i) == NavBefore(rows, initialNav, i) {
    }
  }

  ghost predicate AllReconcile(rows: seq<PeriodRow>, periods: seq<RebalancePeriod>)
    requires |rows| <= |periods|
  {
    forall i :: 0 <= i < |rows| ==> RowReconciles(rows[i], periods[i]) && rows[i].index == i
  }

  lemma {:induction false} RunReconciles(periods: seq<RebalancePeriod>, n: nat, initialNav: real, model: CostModel)
    requires n <= |periods| && AllValid(periods)
    ensures RunTo(periods, n, initialNav, model) != Failure(ReconciliationFailure)
    ensures RunTo(periods, n, initialNav, model).Success? ==>
              var run := RunTo(periods, n, initialNav, model).value;
              AllReconcile(run.rows, periods) && Chained(run.rows, initialNav, Nav(run.book))
  {
    hide RowReconciles, RunPeriod, ValidPeriod, Chained;
    if n == 0 {
      NothingTraded(initialNav);
    } else {
      RunReconciles(periods, n - 1, initialNav, model);
      if RunTo(periods, n - 1, initialNav, model).Success? {
        var run := RunTo(periods, n - 1, initialNav, model).value;
        StepsPresent(periods, n - 1);
        PeriodReconciles(run, periods[n - 1], n - 1, model);
        if RunPeriod(run, periods[n - 1], n - 1, model).Success? {
          var after := RunPeriod(run, periods[n - 1], n - 1, model).value;
          assert after.rows == run.rows + [after.rows[n - 1]];
          ChainExtends(run.rows, after.rows[n - 1], initialNav, Nav(run.book));
        }
      }
    }
  }

  lemma NothingTraded(initialNav: real)
    ensures Chained([], initialNav, Nav(Book(initialNav, map[], {})))
  {
  }

  lemma StepsPresent(periods: seq<RebalancePeriod>, i: nat)
    requires AllValid(periods) && i < |periods|
    ensures ValidPeriod(periods[i]) && periods[i].steps != []
  {
  }

  lemma ChainEmpty(initialNav: real, lastNav: real)
    requires Chained([], initialNav, lastNav)
    ensures lastNav == initialNav
  {
  }

  lemma ChainLast(rows: seq<PeriodRow>, periods: seq<RebalancePeriod>, initialNav: real, lastNav: real)
    requires 0 < |rows| <= |periods| && AllReconcile(rows, periods) && Chained(rows, initialNav, lastNav)
    ensures lastNav == rows[|rows| - 1].navEnd
    ensures rows[|rows| - 1].navEnd == rows[|rows| - 1].navStart + rows[|rows| - 1].netPnl
  {
    assert RowReconciles(rows[|rows| - 1], periods[|rows| - 1]);
  }

  lemma {:induction false} NavsTelescope(rows: seq<PeriodRow>, periods: seq<RebalancePeriod>, initialNav: real, lastNav: real)
    requires |rows| <= |periods| && AllReconcile(rows, periods) && Chained(rows, initialNav, lastNav)
    ensures lastNav == initialNav + Sum(NetPnls(rows))
    decreases |rows|
  {
    hide RowReconciles, Chained;
    if rows == [] {
      assert lastNav == initialNav by { ChainEmpty(initialNav, lastNav); }
    } else {
      var front := rows[..|rows| - 1];
      var last := rows[|rows| - 1];
      ChainFront(rows, initialNav, lastNav);
      NavsTelescope(front, periods, initialNav, last.navStart);
      assert lastNav == last.navEnd == last.navStart + last.netPnl by {
        ChainLast(rows, periods, initialNav, lastNav);
      }
      assert NetPnls(rows) == NetPnls(front) + [last.netPnl];
      SumAppend(NetPnls(front), last.netPnl);
    }
  }

  /** The core claim: for every schedule, opening NAV and cost model, no run ever fails to reconcile;
      in a run that succeeds both return paths agree on every row, each period opens where the last one
      closed, and NAV moves by the net profit alone. */
  lemma LedgerReconciles(periods: seq<RebalancePeriod>, initialNav: real, model: CostModel)
    requires AllValid(periods)
    ensures Report(periods, initialNav, model) != Failure(ReconciliationFailure)
    ensures Report(periods, initialNav, model).Success? ==>
              var ledger := Report(periods, initialNav, model).value;
              && |ledger.periods| == |periods|
              && AllReconcile(ledger.periods, periods)
              && Chained(ledger.periods, initialNav, ledger.finalNav)
              && ledger.finalNav == ledger.finalCash + MapSum(ledger.finalPositions)
              && ledger.finalNav == initialNav + Sum(NetPnls(ledger.periods))
  {
    hide RunTo, RowReconciles, ValidPeriod, MapSum;
    RunReconciles(periods, |periods|, initialNav, model);
    if Report(periods, initialNav, model).Success? {
      var ledger := Report(periods, initialNav, model).value;
      NavsTelescope(ledger.periods, periods, initialNav, ledger.finalNav);
    }
  }

  // ---------------------------------------------------------------- NAV stays positive, signs are kept

  ghost predicate AllNavsPositive(steps: seq<StepRow>) {
    forall i :: 0 <= i < |steps| ==> steps[i].nav > 0.0
  }

  lemma {:induction false} MarkToNavs(r: Running, steps: seq<MarkStep>, n: nat, index: nat)
    requires n <= |steps| && AllNavsPositive(r.steps)
    requires MarkTo(r, steps, n, index).Success?
    ensures AllNavsPositive(MarkTo(r, steps, n, index).value.steps)
    ensures |MarkTo(r, steps, n, index).value.steps| == |r.steps| + n
  {
    hide AfterMark, Contributions, Moved, MapSum, Records, Nav, Compounded;
    if n > 0 {
      MarkToNavs(r, steps, n - 1, index);
    }
  }

  /** Every NAV recorded at a mark step is positive. */
  lemma {:induction false} NavsStayPositive(periods: seq<RebalancePeriod>, n: nat, initialNav: real, model: CostModel)
    requires n <= |periods| && AllValid(periods)
    requires RunTo(periods, n, initialNav, model).Success?
    ensures AllNavsPositive(RunTo(periods, n, initialNav, model).value.steps)
  {
    hide MarkTo, Request, CloseRow;
    if n > 0 {
      NavsStayPositive(periods, n - 1, initialNav, model);
      var run := RunTo(periods, n - 1, initialNav, model).value;
      var start := OpenPeriod(run, periods[n - 1], model).value;
      MarkToNavs(start, periods[n - 1].steps, |periods[n - 1].steps|, n - 1);
    }
  }

  lemma SignOfProduct(w: real, nav: real, factor: real)
    requires nav > 0.0 && factor > 0.0
    ensures Times(Times(w, nav), factor) > 0.0 <==> w > 0.0
    ensures Times(Times(w, nav), factor) < 0.0 <==> w < 0.0
  {
    if w > 0.0 {
      ProductPositive(w, nav);
      ProductPositive(Times(w, nav), factor);
    } else if w < 0.0 {
      ProductPositive(-w, nav);
      ProductPositive(Times(-w, nav), factor);
      assert Times(Times(w, nav), factor) == -Times(Times(-w, nav), factor);
    } else {
      TimesByZero(nav);
      TimesByZero(factor);
    }
  }

  /** A position keeps the sign of its target weight for as long as it is held. */
  lemma SignsKept(run: Run, period: RebalancePeriod, n: nat, index: nat, model: CostModel, k: Id)
    requires ValidPeriod(period) && n <= |period.steps|
    requires OpenPeriod(run, period, model).Success?
    requires MarkTo(OpenPeriod(run, period, model).value, period.steps, n, index).Success?
    requires k in MarkTo(OpenPeriod(run, period, model).value, period.steps, n, index).value.book.positions
    ensures k in period.target.weights
    ensures var v := MarkTo(OpenPeriod(run, period, model).value, period.steps, n, index).value.book.positions[k];
            (v > 0.0 <==> period.target.weights[k] > 0.0) && (v < 0.0 <==> period.target.weights[k] < 0.0)
  {
    hide Times, Mark, Request, MapSum, MarkTo, Sum, EarnedCurrency;
    var weights, nav, cost := period.target.weights, Nav(run.book), model(Request(run.book, period)).cost;
    OpenAgrees(run, period, model);
    MarkToAgrees(OpenPeriod(run, period, model).value, period.steps, n, index, weights, nav, cost);
    var r := MarkTo(OpenPeriod(run, period, model).value, period.steps, n, index).value;
    assert r.factors[k] >= 0.0;
    if r.factors[k] == 0.0 {
      TimesByZero(Times(weights[k], nav));
    } else {
      SignOfProduct(weights[k], nav, r.factors[k]);
    }
  }
}

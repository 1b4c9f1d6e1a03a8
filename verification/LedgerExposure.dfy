/** What the ledger reports besides P&L: trades, turnover, exposures, and the NAV of every step, from the inputs alone. */
module LedgerExposure {
  import opened Sums
  import opened Ordering
  import opened Wrappers
  import opened Ledger
  import opened LedgerTheorems

  // ---------------------------------------------------------------- buys, sells and shorts

  function Buys(trades: map<Id, real>): map<Id, real> {
    map k | k in trades && trades[k] > 0.0 :: trades[k]
  }

  function Sells(trades: map<Id, real>): map<Id, real> {
    map k | k in trades && trades[k] < 0.0 :: -trades[k]
  }

  /** Buys and sells add up to the absolute total, and differ by the signed one. */
  lemma BuysAndSells(m: map<Id, real>)
    ensures MapSum(AbsValues(m)) == MapSum(Buys(m)) + MapSum(Sells(m))
    ensures MapSum(m) == MapSum(Buys(m)) - MapSum(Sells(m))
  {
    var up := map k | k in m :: Max(m[k], 0.0);
    var down := map k | k in m :: Max(-m[k], 0.0);
    MapSumDropZeros(up, Buys(m));
    MapSumDropZeros(down, Sells(m));
    MapSumAdd(up, down, AbsValues(m));
    MapSumAdd(m, down, up);
  }

  lemma ScaledBook(weights: map<Id, real>, nav: real)
    requires nav > 0.0
    ensures MapSum(TargetValues(weights, nav)) == Times(nav, MapSum(weights))
    ensures MapSum(AbsValues(TargetValues(weights, nav))) == Times(nav, MapSum(AbsValues(weights)))
  {
    forall k | k in weights
      ensures TargetValues(weights, nav)[k] == Times(nav, weights[k])
      ensures AbsValues(TargetValues(weights, nav))[k] == Times(nav, AbsValues(weights)[k])
    {
      Commute(weights[k], nav);
      AbsOfProduct(weights[k], nav);
    }
    MapSumScale(nav, weights, TargetValues(weights, nav));
    MapSumScale(nav, AbsValues(weights), AbsValues(TargetValues(weights, nav)));
  }

  lemma AbsOfProduct(w: real, nav: real)
    requires nav > 0.0
    ensures Abs(Times(w, nav)) == Times(nav, Abs(w))
  {
    if w >= 0.0 {
      NonNegative(w, nav);
    } else {
      NonNegative(-w, nav);
    }
  }

  /** What must be traded name by name to move from the held values to the weights. */
  function Moves(weights: map<Id, real>, nav: real, held: map<Id, real>): map<Id, real> {
    map k | k in weights.Keys + held.Keys :: Times(At(weights, k), nav) - At(held, k)
  }

  /** What the cost hook is asked: the trades to target, both of their totals, and what is then short. */
  ghost predicate AsksFor(request: ChargeRequest, period: RebalancePeriod, nav: real, held: map<Id, real>) {
    var weights := period.target.weights;
    && request.rebalanceDate == period.rebalanceDate && request.dayCountFraction == period.dayCountFraction
    && request.nav == nav
    && (forall k :: At(request.trades, k) == Times(At(weights, k), nav) - At(held, k))
    && (forall k :: k in request.trades ==> request.trades[k] != 0.0)
    && request.tradedTwoWay == MapSum(Buys(request.trades)) + MapSum(Sells(request.trades))
    && MapSum(Buys(request.trades)) - MapSum(Sells(request.trades)) == Times(nav, MapSum(weights)) - MapSum(held)
    && request.tradedTwoWay == MapSum(AbsValues(Moves(weights, nav, held)))
    && 2.0 * request.tradedOneWay == request.tradedTwoWay
    && 2.0 * request.shortNotional == Times(nav, MapSum(AbsValues(weights)) - MapSum(weights))
  }

  /** Every request is for the trades between the held book and the targets, halved once for the one-way total. */
  lemma RequestAsks(book: Book, period: RebalancePeriod)
    requires Nav(book) > 0.0
    ensures AsksFor(Request(book, period), period, Nav(book), book.positions)
  {
    hide MapSum, Times, Nav, AbsValues, Buys, Sells, TargetValues, TradeList;
    var weights, nav := period.target.weights, Nav(book);
    var targets := TargetValues(weights, nav);
    var trades := TradeList(book.positions, targets);
    TradesToTarget(weights, nav, book.positions);
    BuysAndSells(trades);
    SelfFinancing(book.positions, targets);
    ScaledBook(weights, nav);
    SameMoves(weights, nav, book.positions);
    BuysAndSells(targets);
    assert Shorts(targets) == Sells(targets) by { SellsAreShorts(targets); }
    Distribute(nav, MapSum(AbsValues(weights)) - MapSum(weights), MapSum(weights));
  }

  lemma SellsAreShorts(positions: map<Id, real>)
    ensures Shorts(positions) == Sells(positions)
  {
  }

  lemma TradesToTarget(weights: map<Id, real>, nav: real, held: map<Id, real>)
    ensures var trades := TradeList(held, TargetValues(weights, nav));
            && (forall k :: At(trades, k) == Times(At(weights, k), nav) - At(held, k))
            && forall k :: k in trades ==> trades[k] != 0.0
  {
    hide Times;
    TimesByZero(nav);
  }

  lemma SameMoves(weights: map<Id, real>, nav: real, held: map<Id, real>)
    ensures MapSum(AbsValues(TradeList(held, TargetValues(weights, nav)))) == MapSum(AbsValues(Moves(weights, nav, held)))
  {
    hide Times, MapSum;
    TimesByZero(nav);
    MapSumDropZeros(AbsValues(Moves(weights, nav, held)), AbsValues(TradeList(held, TargetValues(weights, nav))));
  }

  /** The first rebalance trades from all cash, so its one-way total is half the gross book. */
  lemma FirstTrade(book: Book, period: RebalancePeriod)
    requires Nav(book) > 0.0 && book.positions == map[]
    ensures 2.0 * Request(book, period).tradedOneWay == Times(Nav(book), MapSum(AbsValues(period.target.weights)))
  {
    hide MapSum, Times, Request, Nav;
    var weights, nav := period.target.weights, Nav(book);
    RequestAsks(book, period);
    ScaledBook(weights, nav);
    assert Moves(weights, nav, book.positions) == TargetValues(weights, nav);
  }

  // ---------------------------------------------------------------- the book inside a period

  /** Weight times path return, name by name, over the first n steps. */
  ghost function ReturnsTo(period: RebalancePeriod, n: nat): map<Id, real>
    requires n <= |period.steps|
  {
    map k | k in period.target.weights :: Times(period.target.weights[k], PathFactor(period.steps, n, k) - 1.0)
  }

  /** The values held after n steps: weight * opening NAV * growth, of the names neither terminated nor worthless. */
  ghost function Drifted(period: RebalancePeriod, nav: real, n: nat): map<Id, real>
    requires n <= |period.steps|
  {
    map k | k in period.target.weights && k !in FrozenBy(period.steps, n) && PathFactor(period.steps, n, k) != 0.0 ::
      Times(Times(period.target.weights[k], nav), PathFactor(period.steps, n, k))
  }

  lemma BookInside(r: Running, period: RebalancePeriod, n: nat, nav: real, cost: real)
    requires n <= |period.steps|
    requires PathsAgree(r, period.target.weights, nav, cost) && FactorsMatch(r, period.steps, n, period.target.weights)
    ensures r.book.positions == Drifted(period, nav, n)
    ensures Nav(r.book) == nav - cost + Times(nav, MapSum(ReturnsTo(period, n)))
    ensures Sum(r.pnls) == Times(nav, MapSum(ReturnsTo(period, n)))
  {
    hide Times, MapSum, PathFactor, Sum, Nav;
    EarnedScales(period.target.weights, nav, r.factors);
    assert Earned(period.target.weights, r.factors) == ReturnsTo(period, n);
  }

  /** One mark step's row: the NAV and the exposures of the drifted book, and the profit since the step before. */
  ghost predicate StepMeans(row: StepRow, period: RebalancePeriod, index: nat, nav: real, cost: real, n: nat)
    requires 0 < n <= |period.steps|
  {
    && row.periodIndex == index && row.markDate == period.steps[n - 1].markDate
    && row.nav == nav - cost + Times(nav, MapSum(ReturnsTo(period, n)))
    && row.pnl == Times(nav, MapSum(ReturnsTo(period, n))) - Times(nav, MapSum(ReturnsTo(period, n - 1)))
    && Times(row.grossExposure, row.nav) == MapSum(AbsValues(Drifted(period, nav, n)))
    && Times(row.netExposure, row.nav) == MapSum(Drifted(period, nav, n))
  }

  lemma StepRowMeans(r: Running, period: RebalancePeriod, index: nat, nav: real, cost: real, n: nat)
    requires ValidPeriod(period) && 0 < n <= |period.steps| && nav > 0.0
    requires PathsAgree(r, period.target.weights, nav, cost)
    requires FactorsMatch(r, period.steps, n - 1, period.target.weights)
    requires Mark(r, period.steps[n - 1], index).Success?
    ensures var s := Mark(r, period.steps[n - 1], index).value;
            && |s.steps| == |r.steps| + 1 && s.steps[..|r.steps|] == r.steps
            && StepMeans(s.steps[|r.steps|], period, index, nav, cost, n)
  {
    hide Times, MapSum, Growth, Records, AfterMark, Nav, Contributions, PathsAgree, FactorsMatch, ReturnsTo, Drifted, AbsValues, ValidPeriod;
    var step := period.steps[n - 1];
    var s := Mark(r, step, index).value;
    BookInside(r, period, n - 1, nav, cost);
    MarkValue(r, step);
    ValidAt(period, n - 1);
    MarkAgrees(r, step, index, period.target.weights, nav, cost);
    MatchAfter(r, period, index, nav, cost, n);
    BookInside(s, period, n, nav, cost);
    QuotientTimes(MapSum(AbsValues(s.book.positions)), Nav(s.book));
    QuotientTimes(MapSum(s.book.positions), Nav(s.book));
  }

  lemma ValidAt(period: RebalancePeriod, j: nat)
    requires ValidPeriod(period) && j < |period.steps|
    ensures ValidStep(period.steps[j]) && forall k :: k in period.target.weights ==> period.target.weights[k] != 0.0
  {
  }

  lemma MatchAfter(r: Running, period: RebalancePeriod, index: nat, nav: real, cost: real, n: nat)
    requires ValidPeriod(period) && 0 < n <= |period.steps| && nav > 0.0
    requires PathsAgree(r, period.target.weights, nav, cost)
    requires FactorsMatch(r, period.steps, n - 1, period.target.weights)
    requires Mark(r, period.steps[n - 1], index).Success?
    ensures FactorsMatch(Mark(r, period.steps[n - 1], index).value, period.steps, n, period.target.weights)
  {
    hide Mark, Times, MapSum, PositionsMatch, Nav, EarnedCurrency, FactorsMatch;
    MarkFactorsMatch(r, period.steps, n, index, period.target.weights, nav);
  }

  // ---------------------------------------------------------------- a whole period

  /** The row j places after an offset is the one of step j. */
  ghost predicate StepRowAt(steps: seq<StepRow>, offset: nat, j: nat, period: RebalancePeriod, index: nat, nav: real, cost: real) {
    offset + j < |steps| && j < |period.steps| && StepMeans(steps[offset + j], period, index, nav, cost, j + 1)
  }

  /** The last step rows of a run are those of the first n steps of a period. */
  ghost predicate StepsMean(steps: seq<StepRow>, before: seq<StepRow>, period: RebalancePeriod, index: nat, nav: real, cost: real, n: nat)
    requires n <= |period.steps|
  {
    && |steps| == |before| + n && steps[..|before|] == before
    && forall j :: 0 <= j < n ==> StepRowAt(steps, |before|, j, period, index, nav, cost)
  }

  lemma {:induction false} PeriodSteps(start: Running, period: RebalancePeriod, index: nat, nav: real, cost: real, n: nat)
    requires ValidPeriod(period) && n <= |period.steps| && nav > 0.0
    requires PathsAgree(start, period.target.weights, nav, cost)
    requires start.book.positions.Keys == period.target.weights.Keys && forall k :: k in start.factors ==> start.factors[k] == 1.0
    requires MarkTo(start, period.steps, n, index).Success?
    ensures StepsMean(MarkTo(start, period.steps, n, index).value.steps, start.steps, period, index, nav, cost, n)
  {
    hide PathsAgree, FactorsMatch, Mark, StepMeans, ValidStep, ValidPortfolio;
    if n > 0 {
      PeriodSteps(start, period, index, nav, cost, n - 1);
      var r := MarkTo(start, period.steps, n - 1, index).value;
      ValidAt(period, n - 1);
      MarkToAgrees(start, period.steps, n - 1, index, period.target.weights, nav, cost);
      MarkToFactorsMatch(start, period.steps, n - 1, index, period.target.weights, nav, cost);
      StepRowMeans(r, period, index, nav, cost, n);
      var s := Mark(r, period.steps[n - 1], index).value;
      StepsExtend(r.steps, s.steps, start.steps, period, index, nav, cost, n);
    }
  }

  lemma StepsExtend(
      steps: seq<StepRow>, steps': seq<StepRow>, before: seq<StepRow>, period: RebalancePeriod, index: nat, nav: real, cost: real, n: nat)
    requires 0 < n <= |period.steps| && StepsMean(steps, before, period, index, nav, cost, n - 1)
    requires |steps'| == |steps| + 1 && steps'[..|steps|] == steps && StepMeans(steps'[|steps|], period, index, nav, cost, n)
    ensures StepsMean(steps', before, period, index, nav, cost, n)
  {
    hide StepMeans;
    forall j | 0 <= j < n ensures StepRowAt(steps', |before|, j, period, index, nav, cost) {
      if j < n - 1 {
        assert StepRowAt(steps, |before|, j, period, index, nav, cost);
        assert steps'[|before| + j] == steps'[..|steps|][|before| + j];
      }
    }
    assert steps'[..|before|] == steps'[..|steps|][..|before|];
  }

  /** A period row's trading and exposures, from the weights, the opening NAV and the values held before. */
  ghost predicate RowMeans(row: PeriodRow, period: RebalancePeriod, held: map<Id, real>, model: CostModel) {
    var weights := period.target.weights;
    && row.rebalanceDate == period.rebalanceDate
    && (period.steps != [] ==> row.periodEnd == period.steps[|period.steps| - 1].markDate)
    && row.grossExposure == MapSum(AbsValues(weights)) && row.netExposure == MapSum(weights)
    && 2.0 * row.tradedOneWay == MapSum(AbsValues(Moves(weights, row.navStart, held)))
    && Times(row.turnoverOneWay, row.navStart) == row.tradedOneWay
    && row.turnoverTwoWay == 2.0 * row.turnoverOneWay
    && exists request :: AsksFor(request, period, row.navStart, held) && request.tradedOneWay == row.tradedOneWay
                         && model(request) == Charges(row.cost, row.borrow)
  }

  lemma CloseMeans(r: Running, start: Book, period: RebalancePeriod, model: CostModel, index: nat)
    requires Nav(start) > 0.0 && period.steps != []
    ensures RowMeans(CloseRow(r, start, period, model(Request(start, period)), index), period, start.positions, model)
  {
    hide MapSum, Times, Nav, AbsValues, Request, AsksFor, TargetValues, Moves, Earned, Sum;
    var request := Request(start, period);
    var row := CloseRow(r, start, period, model(request), index);
    RequestAsks(start, period);
    AskTotals(request, period, Nav(start), start.positions);
    ScaledBook(period.target.weights, Nav(start));
    Unscale(Nav(start), MapSum(AbsValues(period.target.weights)));
    Unscale(Nav(start), MapSum(period.target.weights));
    QuotientTimes(request.tradedOneWay, Nav(start));
    Halve(request.tradedOneWay, request.tradedTwoWay, Nav(start));
    assert AsksFor(request, period, row.navStart, start.positions);
  }

  lemma AskTotals(request: ChargeRequest, period: RebalancePeriod, nav: real, held: map<Id, real>)
    requires AsksFor(request, period, nav, held)
    ensures request.tradedTwoWay == MapSum(AbsValues(Moves(period.target.weights, nav, held)))
    ensures 2.0 * request.tradedOneWay == request.tradedTwoWay
  {
  }

  lemma Unscale(nav: real, x: real)
    requires nav > 0.0
    ensures Times(nav, x) / nav == x
  {
  }

  lemma Halve(one: real, two: real, nav: real)
    requires nav > 0.0 && 2.0 * one == two
    ensures two / nav == 2.0 * (one / nav)
  {
  }

  lemma PeriodMeans(run: Run, period: RebalancePeriod, index: nat, model: CostModel)
    requires ValidPeriod(period) && RunPeriod(run, period, index, model).Success?
    ensures var after := RunPeriod(run, period, index, model).value;
            && |after.rows| == |run.rows| + 1 && after.rows[..|run.rows|] == run.rows
            && after.rows[|run.rows|].navStart == Nav(run.book)
            && RowMeans(after.rows[|run.rows|], period, run.book.positions, model)
            && after.book.positions == Drifted(period, Nav(run.book), |period.steps|)
            && StepsMean(after.steps, run.steps, period, index, Nav(run.book), after.rows[|run.rows|].cost, |period.steps|)
  {
    hide PathsAgree, FactorsMatch, Mark, Request, MapSum, Times, MarkTo, RowMeans, StepsMean, Drifted, ReturnsTo, ValidPeriod;
    StepsNonEmpty(period);
    var charges := model(Request(run.book, period));
    var start := OpenPeriod(run, period, model).value;
    var r := MarkTo(start, period.steps, |period.steps|, index).value;
    PeriodPaths(run, period, index, model);
    BookInside(r, period, |period.steps|, Nav(run.book), charges.cost);
    CloseMeans(r, run.book, period, model, index);
    OpenAgrees(run, period, model);
    OpenedWith(run, period, model);
    PeriodSteps(start, period, index, Nav(run.book), charges.cost, |period.steps|);
  }

  lemma StepsNonEmpty(period: RebalancePeriod)
    requires ValidPeriod(period)
    ensures period.steps != []
  {
  }

  lemma OpenedWith(run: Run, period: RebalancePeriod, model: CostModel)
    requires OpenPeriod(run, period, model).Success?
    ensures var start := OpenPeriod(run, period, model).value;
            && start.book.positions.Keys == period.target.weights.Keys && start.steps == run.steps
            && forall k :: k in start.factors ==> start.factors[k] == 1.0
  {
    hide Request;
  }

  // ---------------------------------------------------------------- whole runs

  /** How many step rows the first n periods write. */
  function StepsBefore(periods: seq<RebalancePeriod>, n: nat): nat
    requires n <= |periods|
  {
    if n == 0 then 0 else StepsBefore(periods, n - 1) + |periods[n - 1].steps|
  }

  /** What is held when period i opens: nothing, or what the period before left. */
  ghost function HeldBefore(periods: seq<RebalancePeriod>, rows: seq<PeriodRow>, i: nat): map<Id, real>
    requires i <= |periods| && i <= |rows|
  {
    if i == 0 then map[] else Drifted(periods[i - 1], rows[i - 1].navStart, |periods[i - 1].steps|)
  }

  /** Every row of a run, and every step row of its periods. */
  ghost predicate RunMeans(periods: seq<RebalancePeriod>, n: nat, rows: seq<PeriodRow>, steps: seq<StepRow>, model: CostModel)
    requires n <= |periods|
  {
    && |rows| == n && |steps| == StepsBefore(periods, n)
    && (forall i :: 0 <= i < n ==> RowMeans(rows[i], periods[i], HeldBefore(periods, rows, i), model))
    && forall i, j :: 0 <= i < n && 0 <= j < |periods[i].steps| ==>
         StepRowAt(steps, StepsBefore(periods, i), j, periods[i], i, rows[i].navStart, rows[i].cost)
  }

  lemma RunExtends(
      periods: seq<RebalancePeriod>, n: nat, rows: seq<PeriodRow>, steps: seq<StepRow>, model: CostModel,
      rows': seq<PeriodRow>, steps': seq<StepRow>)
    requires n < |periods| && RunMeans(periods, n, rows, steps, model)
    requires |rows'| == n + 1 && rows'[..n] == rows
    requires RowMeans(rows'[n], periods[n], HeldBefore(periods, rows, n), model)
    requires StepsMean(steps', steps, periods[n], n, rows'[n].navStart, rows'[n].cost, |periods[n].steps|)
    ensures RunMeans(periods, n + 1, rows', steps', model)
  {
    hide RowMeans, StepMeans, Drifted;
    forall i | 0 <= i < n + 1 ensures RowMeans(rows'[i], periods[i], HeldBefore(periods, rows', i), model) {
      assert forall k :: 0 <= k < n ==> rows'[k] == rows'[..n][k];
    }
    forall i, j | 0 <= i < n + 1 && 0 <= j < |periods[i].steps|
      ensures StepRowAt(steps', StepsBefore(periods, i), j, periods[i], i, rows'[i].navStart, rows'[i].cost)
    {
      if i < n {
        assert rows'[i] == rows'[..n][i];
        assert StepRowAt(steps, StepsBefore(periods, i), j, periods[i], i, rows[i].navStart, rows[i].cost);
        assert steps'[StepsBefore(periods, i) + j] == steps'[..|steps|][StepsBefore(periods, i) + j];
      }
    }
  }

  lemma {:induction false} RowsOfRun(periods: seq<RebalancePeriod>, n: nat, initialNav: real, model: CostModel)
    requires n <= |periods| && AllValid(periods) && RunTo(periods, n, initialNav, model).Success?
    ensures var run := RunTo(periods, n, initialNav, model).value;
            && RunMeans(periods, n, run.rows, run.steps, model)
            && run.book.positions == HeldBefore(periods, run.rows, n)
  {
    hide RunPeriod, RowMeans, StepRowAt, Drifted, ValidPeriod, Nav, StepsMean;
    if n > 0 {
      RowsOfRun(periods, n - 1, initialNav, model);
      var run := RunTo(periods, n - 1, initialNav, model).value;
      StepsPresent(periods, n - 1);
      PeriodMeans(run, periods[n - 1], n - 1, model);
      var after := RunTo(periods, n, initialNav, model).value;
      RunExtends(periods, n - 1, run.rows, run.steps, model, after.rows, after.steps);
    }
  }

  /**
   * In every successful report each row's turnover, exposures and charges, and each step's NAV,
   * profit and exposures, are what the weights, the step returns and the opening NAV make them.
   */
  lemma ReportMeans(periods: seq<RebalancePeriod>, initialNav: real, model: CostModel)
    requires AllValid(periods) && Report(periods, initialNav, model).Success?
    ensures var ledger := Report(periods, initialNav, model).value;
            && RunMeans(periods, |periods|, ledger.periods, ledger.steps, model)
            && ledger.finalPositions == HeldBefore(periods, ledger.periods, |periods|)
  {
    hide RunTo, RunMeans, HeldBefore, ValidPeriod;
    RowsOfRun(periods, |periods|, initialNav, model);
  }
}

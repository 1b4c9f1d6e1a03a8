/** The position ledger as a state machine: trade to target, charge, mark, terminate, close. */
module Ledger {
  import opened Sums
  import opened Ordering
  import opened Wrappers

  // ---------------------------------------------------------------- inputs

  datatype Portfolio = Portfolio(weights: map<Id, real>, grossTarget: real)

  datatype MarkStep = MarkStep(markDate: int, stepReturns: map<Id, real>, terminated: set<Id>)

  datatype RebalancePeriod = RebalancePeriod(
    rebalanceDate: int, target: Portfolio, steps: seq<MarkStep>, dayCountFraction: real)

  /** A target book has no zero entries: absence means no position. */
  predicate ValidPortfolio(p: Portfolio) {
    p.grossTarget >= 0.0 && forall k :: k in p.weights ==> p.weights[k] != 0.0
  }

  /** No return is below -100%, and a terminated security has a terminal return. */
  predicate ValidStep(s: MarkStep) {
    && (forall k :: k in s.stepReturns ==> s.stepReturns[k] >= -1.0)
    && s.terminated <= s.stepReturns.Keys
  }

  /** Instances that fail these checks are refused when they are built. */
  predicate ValidPeriod(p: RebalancePeriod) {
    && ValidPortfolio(p.target)
    && p.steps != []
    && (forall i :: 0 <= i < |p.steps| ==> ValidStep(p.steps[i]))
    && p.rebalanceDate < p.steps[0].markDate
    && (forall i :: 0 < i < |p.steps| ==> p.steps[i - 1].markDate < p.steps[i].markDate)
    && p.dayCountFraction >= 0.0
  }

  predicate AllValid(periods: seq<RebalancePeriod>) {
    forall i :: 0 <= i < |periods| ==> ValidPeriod(periods[i])
  }

  datatype Charges = Charges(cost: real, borrow: real)

  datatype ChargeRequest = ChargeRequest(
    rebalanceDate: int, nav: real, trades: map<Id, real>, tradedOneWay: real, tradedTwoWay: real,
    shortNotional: real, dayCountFraction: real)

  /** The cost hook: any function of the request. It may return negative charges; the ledger refuses them. */
  type CostModel = ChargeRequest -> Charges

  // ---------------------------------------------------------------- outputs

  datatype AccountingError =
    | ScheduleError
    | NonPositiveNav
    | TerminatedSecurity
    | NegativeCharge
    | MissingReturn
    | ReconciliationFailure

  datatype StepRow = StepRow(
    periodIndex: nat, markDate: int, pnl: real, nav: real, grossExposure: real, netExposure: real)

  datatype PeriodRow = PeriodRow(
    index: nat, rebalanceDate: int, periodEnd: int, navStart: real, navEnd: real,
    grossExposure: real, netExposure: real, tradedOneWay: real, turnoverOneWay: real, turnoverTwoWay: real,
    grossPnl: real, cost: real, borrow: real, netPnl: real,
    portfolioReturn: real, checkReturn: real, residual: real)

  datatype TerminationRecord = TerminationRecord(securityId: Id, markDate: int, periodIndex: nat, valueRealized: real)

  datatype LedgerReport = LedgerReport(
    periods: seq<PeriodRow>, steps: seq<StepRow>, terminations: seq<TerminationRecord>,
    finalNav: real, finalCash: real, finalPositions: map<Id, real>)

  const RECONCILIATION_TOLERANCE: real := 0.0000000001

  // ---------------------------------------------------------------- the state machine

  /** Cash, signed position values, and every id that has ever been terminated. */
  datatype Book = Book(cash: real, positions: map<Id, real>, banned: set<Id>)

  /** The state inside one period; `factors` is the independent compounding path. */
  datatype Running = Running(
    book: Book, factors: map<Id, real>, pnls: seq<real>,
    steps: seq<StepRow>, terminations: seq<TerminationRecord>)

  datatype Run = Run(book: Book, rows: seq<PeriodRow>, steps: seq<StepRow>, terminations: seq<TerminationRecord>)

  ghost function Nav(b: Book): real {
    b.cash + MapSum(b.positions)
  }

  function AbsValues(m: map<Id, real>): map<Id, real> {
    map k | k in m :: Abs(m[k])
  }

  function TargetValues(weights: map<Id, real>, nav: real): map<Id, real> {
    map k | k in weights :: Times(weights[k], nav)
  }

  function Delta(positions: map<Id, real>, targets: map<Id, real>, k: Id): real {
    At(targets, k) - At(positions, k)
  }

  function TradeList(positions: map<Id, real>, targets: map<Id, real>): map<Id, real> {
    map k | k in positions.Keys + targets.Keys && Delta(positions, targets, k) != 0.0 :: Delta(positions, targets, k)
  }

  function Shorts(positions: map<Id, real>): map<Id, real> {
    map k | k in positions && positions[k] < 0.0 :: -positions[k]
  }

  ghost function Request(book: Book, period: RebalancePeriod): ChargeRequest {
    var targets := TargetValues(period.target.weights, Nav(book));
    var trades := TradeList(book.positions, targets);
    var twoWay := MapSum(AbsValues(trades));
    ChargeRequest(period.rebalanceDate, Nav(book), trades, 0.5 * twoWay, twoWay, MapSum(Shorts(targets)),
                  period.dayCountFraction)
  }

  /** Trade to target with cash absorbing the imbalance, then charge the cost. */
  ghost function OpenPeriod(run: Run, period: RebalancePeriod, model: CostModel): Result<Running, AccountingError> {
    var book := run.book;
    var request := Request(book, period);
    var charges := model(request);
    if Nav(book) <= 0.0 then Failure(NonPositiveNav)
    else if !(period.target.weights.Keys !! book.banned) then Failure(TerminatedSecurity)
    else if charges.cost < 0.0 || charges.borrow < 0.0 then Failure(NegativeCharge)
    else
      var cash := book.cash - MapSum(request.trades) - charges.cost;
      Success(Running(Book(cash, TargetValues(period.target.weights, Nav(book)), book.banned),
                      map k | k in period.target.weights :: 1.0, [], run.steps, run.terminations))
  }

  /** One plus the security's return over the step. */
  function Growth(step: MarkStep, k: Id): real {
    1.0 + At(step.stepReturns, k)
  }

  function Contributions(positions: map<Id, real>, step: MarkStep): map<Id, real> {
    map k | k in positions :: Times(positions[k], At(step.stepReturns, k))
  }

  function Moved(positions: map<Id, real>, step: MarkStep): map<Id, real> {
    map k | k in positions :: Times(positions[k], Growth(step, k))
  }

  function Compounded(factors: map<Id, real>, held: set<Id>, step: MarkStep): map<Id, real> {
    map k | k in factors :: if k in held then Times(factors[k], Growth(step, k)) else factors[k]
  }

  function Closed(moved: map<Id, real>, step: MarkStep): map<Id, real> {
    map k | k in moved && k in step.terminated :: moved[k]
  }

  function Surviving(moved: map<Id, real>, step: MarkStep): map<Id, real> {
    map k | k in moved && k !in step.terminated :: moved[k]
  }

  function NonZero(positions: map<Id, real>): map<Id, real> {
    map k | k in positions && positions[k] != 0.0 :: positions[k]
  }

  /** One record per held terminated security, in ascending id order. */
  function Records(ids: set<Id>, moved: map<Id, real>, step: MarkStep, index: nat): seq<TerminationRecord>
    decreases |ids|
  {
    if ids == {} then [] else
    var k := Least(ids);
    (if k in moved then [TerminationRecord(k, step.markDate, index, moved[k])] else [])
      + Records(ids - {k}, moved, step, index)
  }

  ghost function AfterMark(r: Running, step: MarkStep): Book {
    var moved := Moved(r.book.positions, step);
    Book(r.book.cash + MapSum(Closed(moved, step)), NonZero(Surviving(moved, step)), r.book.banned + step.terminated)
  }

  ghost function RowOf(book: Book, pnl: real, step: MarkStep, index: nat): StepRow
    requires Nav(book) > 0.0
  {
    StepRow(index, step.markDate, pnl, Nav(book),
            MapSum(AbsValues(book.positions)) / Nav(book), MapSum(book.positions) / Nav(book))
  }

  /** One mark-to-market step: returns first, then terminations, then zero positions are dropped. */
  ghost function Mark(r: Running, step: MarkStep, index: nat): Result<Running, AccountingError> {
    if !(r.book.positions.Keys <= step.stepReturns.Keys) then Failure(MissingReturn)
    else
      var pnl := MapSum(Contributions(r.book.positions, step));
      var book := AfterMark(r, step);
      if Nav(book) <= 0.0 then Failure(NonPositiveNav)
      else
        Success(Running(book, Compounded(r.factors, r.book.positions.Keys, step), r.pnls + [pnl],
                        r.steps + [RowOf(book, pnl, step, index)],
                        r.terminations + Records(step.terminated, Moved(r.book.positions, step), step, index)))
  }

  /** The first n steps of a period. */
  ghost function MarkTo(r: Running, steps: seq<MarkStep>, n: nat, index: nat): Result<Running, AccountingError>
    requires n <= |steps|
  {
    if n == 0 then Success(r) else
    match MarkTo(r, steps, n - 1, index)
    case Failure(e) => Failure(e)
    case Success(s) => Mark(s, steps[n - 1], index)
  }

  /** What the weights earned through their compound factors: the second path. */
  function Earned(weights: map<Id, real>, factors: map<Id, real>): map<Id, real> {
    map k | k in factors :: Times(At(weights, k), factors[k] - 1.0)
  }

  ghost function CloseRow(r: Running, start: Book, period: RebalancePeriod, charges: Charges, index: nat): PeriodRow
    requires Nav(start) > 0.0 && period.steps != []
  {
    var navStart := Nav(start);
    var targets := TargetValues(period.target.weights, navStart);
    var request := Request(start, period);
    var grossPnl := Sum(r.pnls);
    var netPnl := grossPnl - charges.cost - charges.borrow;
    var ret := netPnl / navStart;
    var check := MapSum(Earned(period.target.weights, r.factors)) - (charges.cost + charges.borrow) / navStart;
    PeriodRow(index, period.rebalanceDate, period.steps[|period.steps| - 1].markDate,
              navStart, r.book.cash - charges.borrow + MapSum(r.book.positions),
              MapSum(AbsValues(targets)) / navStart, MapSum(targets) / navStart,
              request.tradedOneWay, request.tradedOneWay / navStart, request.tradedTwoWay / navStart,
              grossPnl, charges.cost, charges.borrow, netPnl, ret, check, ret - check)
  }

  ghost function RunPeriod(run: Run, period: RebalancePeriod, index: nat, model: CostModel): Result<Run, AccountingError>
    requires period.steps != []
  {
    match OpenPeriod(run, period, model)
    case Failure(e) => Failure(e)
    case Success(start) =>
      match MarkTo(start, period.steps, |period.steps|, index)
      case Failure(e) => Failure(e)
      case Success(r) =>
        var charges := model(Request(run.book, period));
        var row := CloseRow(r, run.book, period, charges, index);
        if Abs(row.residual) > RECONCILIATION_TOLERANCE then Failure(ReconciliationFailure)
        else Success(Run(r.book.(cash := r.book.cash - charges.borrow), run.rows + [row], r.steps, r.terminations))
  }

  /** The first n periods, from all cash. */
  ghost function RunTo(periods: seq<RebalancePeriod>, n: nat, initialNav: real, model: CostModel): (r: Result<Run, AccountingError>)
    requires n <= |periods|
    requires AllValid(periods)
    ensures r.Success? ==> |r.value.rows| == n
  {
    if n == 0 then Success(Run(Book(initialNav, map[], {}), [], [], [])) else
    match RunTo(periods, n - 1, initialNav, model)
    case Failure(e) => Failure(e)
    case Success(run) => RunPeriod(run, periods[n - 1], n - 1, model)
  }

  /** There is a period, and no rebalance precedes the previous period's last mark. */
  predicate ScheduleOk(periods: seq<RebalancePeriod>)
    requires AllValid(periods)
  {
    && periods != []
    && forall i :: 0 < i < |periods| ==>
         var last := periods[i - 1].steps;
         last[|last| - 1].markDate <= periods[i].rebalanceDate
  }

  ghost function Report(periods: seq<RebalancePeriod>, initialNav: real, model: CostModel): Result<LedgerReport, AccountingError>
    requires AllValid(periods)
  {
    if initialNav <= 0.0 || !ScheduleOk(periods) then Failure(ScheduleError) else
    match RunTo(periods, |periods|, initialNav, model)
    case Failure(e) => Failure(e)
    case Success(run) =>
      Success(LedgerReport(run.rows, run.steps, run.terminations, run.rows[|run.rows| - 1].navEnd,
                           run.book.cash, run.book.positions))
  }
}

/** The ledger as the program runs it: nested loops over periods, steps and securities. */
module RunAccounting {
  import opened Sums
  import opened Ordering
  import opened Wrappers
  import opened Dictionaries
  import opened Ledger

  // ---------------------------------------------------------------- the inner loops

  function TradesOf(ids: set<Id>, positions: map<Id, real>, targets: map<Id, real>): map<Id, real> {
    map k | k in ids && Delta(positions, targets, k) != 0.0 :: Delta(positions, targets, k)
  }

  lemma OneTrade(done: set<Id>, sec: Id, positions: map<Id, real>, targets: map<Id, real>)
    ensures TradesOf(done + {sec}, positions, targets)
         == if Delta(positions, targets, sec) != 0.0
            then TradesOf(done, positions, targets)[sec := Delta(positions, targets, sec)]
            else TradesOf(done, positions, targets)
  {
  }

  /** The non-zero trades that take the positions to the targets. */
  method BuildTrades(positions: map<Id, real>, targets: map<Id, real>) returns (trades: map<Id, real>)
    ensures trades == TradeList(positions, targets)
  {
    hide TradesOf, Delta, IdLeq;
    var union := positions.Keys + targets.Keys;
    var todo := union;
    trades := map[];
    assert union - todo == {};
    assert trades == TradesOf({}, positions, targets) by { NoTrades(positions, targets); }
    while todo != {}
      invariant todo <= union
      invariant trades == TradesOf(union - todo, positions, targets)
      decreases |todo|
    {
      var sec := Least(todo);
      OneTrade(union - todo, sec, positions, targets);
      assert union - todo + {sec} == union - (todo - {sec});
      var delta := Delta(positions, targets, sec);
      if delta != 0.0 {
        trades := trades[sec := delta];
      }
      todo := todo - {sec};
    }
    AllTrades(positions, targets);
    assert union - todo == union;
  }

  lemma NoTrades(positions: map<Id, real>, targets: map<Id, real>)
    ensures TradesOf({}, positions, targets) == map[]
  {
  }

  lemma AllTrades(positions: map<Id, real>, targets: map<Id, real>)
    ensures TradesOf(positions.Keys + targets.Keys, positions, targets) == TradeList(positions, targets)
  {
  }

  /** The dictionary with the visited names grown by their returns and the rest untouched. */
  function Grown(m: map<Id, real>, done: set<Id>, step: MarkStep): map<Id, real> {
    map k | k in m :: if k in done then Times(m[k], Growth(step, k)) else m[k]
  }

  lemma GrowOne(m: map<Id, real>, done: set<Id>, step: MarkStep, sec: Id)
    requires sec in m && sec !in done
    ensures sec in Grown(m, done, step) && Grown(m, done, step)[sec] == m[sec]
    ensures Grown(m, done + {sec}, step) == Grown(m, done, step)[sec := Times(m[sec], Growth(step, sec))]
  {
    hide Times, Growth;
  }

  lemma GrowEnds(positions: map<Id, real>, factors: map<Id, real>, step: MarkStep)
    ensures Grown(positions, {}, step) == positions && Grown(factors, {}, step) == factors
    ensures Grown(positions, positions.Keys, step) == Moved(positions, step)
    ensures Grown(factors, positions.Keys, step) == Compounded(factors, positions.Keys, step)
  {
    hide Times, Growth;
  }

  lemma ContributionOf(positions: map<Id, real>, step: MarkStep, sec: Id)
    requires sec in positions && sec in step.stepReturns
    ensures sec in Contributions(positions, step)
    ensures Contributions(positions, step)[sec] == Times(positions[sec], step.stepReturns[sec])
    ensures Growth(step, sec) == 1.0 + step.stepReturns[sec]
  {
  }

  /** Applies one step's returns to the held positions and to their factors. */
  method ApplyReturns(positions: map<Id, real>, factors: map<Id, real>, step: MarkStep)
    returns (ok: bool, positions': map<Id, real>, factors': map<Id, real>, pnl: real)
    requires positions.Keys <= factors.Keys
    ensures ok <==> positions.Keys <= step.stepReturns.Keys
    ensures ok ==> positions' == Moved(positions, step)
    ensures ok ==> factors' == Compounded(factors, positions.Keys, step)
    ensures ok ==> pnl == MapSum(Contributions(positions, step))
  {
    hide MapSum, Times, Grown, Growth, Contributions, Moved, Compounded, IdLeq;
    GrowEnds(positions, factors, step);
    ok, positions', factors', pnl := true, positions, factors, 0.0;
    ghost var rest := Contributions(positions, step);
    assert rest.Keys == positions.Keys by { ContributionKeys(positions, step); }
    var todo := positions.Keys;
    assert positions.Keys - todo == {};
    while todo != {}
      invariant todo <= positions.Keys
      invariant positions.Keys - todo <= step.stepReturns.Keys
      invariant positions' == Grown(positions, positions.Keys - todo, step)
      invariant factors' == Grown(factors, positions.Keys - todo, step)
      invariant rest.Keys == todo && forall k :: k in todo ==> rest[k] == At(Contributions(positions, step), k)
      invariant pnl + MapSum(rest) == MapSum(Contributions(positions, step))
      decreases |todo|
    {
      var sec := Least(todo);
      if sec !in step.stepReturns {
        return false, positions', factors', pnl;
      }
      var ret := step.stepReturns[sec];
      GrowOne(positions, positions.Keys - todo, step, sec);
      GrowOne(factors, positions.Keys - todo, step, sec);
      ContributionOf(positions, step, sec);
      MapSumRemove(rest, sec);
      assert positions.Keys - todo + {sec} == positions.Keys - (todo - {sec});
      pnl := pnl + Times(positions'[sec], ret);
      positions' := positions'[sec := Times(positions'[sec], 1.0 + ret)];
      factors' := factors'[sec := Times(factors'[sec], 1.0 + ret)];
      todo := todo - {sec};
      rest := rest - {sec};
    }
    assert positions.Keys - todo == positions.Keys;
    assert rest == map[];
    EmptySum();
  }

  lemma ContributionKeys(positions: map<Id, real>, step: MarkStep)
    ensures Contributions(positions, step).Keys == positions.Keys
  {
  }

  function Without(m: map<Id, real>, done: set<Id>): map<Id, real> {
    map k | k in m && k !in done :: m[k]
  }

  lemma DropOne(m: map<Id, real>, done: set<Id>, sec: Id)
    ensures Without(m, done + {sec}) == Without(m, done) - {sec}
    ensures sec !in done ==> (sec in Without(m, done) <==> sec in m)
    ensures sec !in done && sec in m ==> Without(m, done)[sec] == m[sec]
  {
  }

  lemma DropEnds(m: map<Id, real>, step: MarkStep)
    ensures Without(m, {}) == m
    ensures Without(m, step.terminated) == Surviving(m, step)
  {
  }

  lemma NothingDropped(m: map<Id, real>)
    ensures Without(m, {}) == m
  {
  }

  lemma EverythingDropped(m: map<Id, real>, step: MarkStep)
    ensures Without(Closed(m, step), step.terminated) == map[]
  {
  }

  lemma ClosedEntry(m: map<Id, real>, step: MarkStep, k: Id)
    requires k in step.terminated
    ensures k in Closed(m, step) <==> k in m
    ensures k in m ==> Closed(m, step)[k] == m[k]
  {
  }

  lemma NextRecord(records: seq<TerminationRecord>, ids: set<Id>, m: map<Id, real>, step: MarkStep, index: nat)
    requires ids != {}
    ensures var k := Least(ids);
            records + Records(ids, m, step, index)
              == (if k in m then records + [TerminationRecord(k, step.markDate, index, m[k])] else records)
                 + Records(ids - {k}, m, step, index)
  {
    var k := Least(ids);
    var own := if k in m then [TerminationRecord(k, step.markDate, index, m[k])] else [];
    assert Records(ids, m, step, index) == own + Records(ids - {k}, m, step, index);
    hide Records;
    Reassociate(records, own, Records(ids - {k}, m, step, index));
    assert records + [] == records;
  }

  lemma Reassociate<T>(a: seq<T>, b: seq<T>, c: seq<T>)
    ensures a + (b + c) == (a + b) + c
  {
  }

  lemma NoRecord(m: map<Id, real>, step: MarkStep, index: nat)
    ensures Records({}, m, step, index) == []
  {
  }

  /** Closes the terminated positions to cash, one record each. */
  method CloseTerminated(positions: map<Id, real>, cash: real, step: MarkStep, index: nat)
    returns (positions': map<Id, real>, cash': real, records: seq<TerminationRecord>)
    ensures positions' == Surviving(positions, step)
    ensures cash' == cash + MapSum(Closed(positions, step))
    ensures records == Records(step.terminated, positions, step, index)
  {
    hide MapSum, Without, Surviving, IdLeq, Records, Closed;
    positions', cash', records := positions, cash, [];
    var todo := step.terminated;
    ghost var closed, done := Closed(positions, step), {};
    DropEnds(positions, step);
    NothingDropped(closed);
    while todo != {}
      invariant todo !! done && todo + done == step.terminated
      invariant positions' == Without(positions, done)
      invariant cash' + MapSum(Without(closed, done)) == cash + MapSum(closed)
      invariant records + Records(todo, positions, step, index) == Records(step.terminated, positions, step, index)
      decreases |todo|
    {
      var sec := Least(todo);
      DropOne(positions, done, sec);
      DropOne(closed, done, sec);
      ClosedEntry(positions, step, sec);
      NextRecord(records, todo, positions, step, index);
      if sec in positions' {
        MapSumRemove(Without(closed, done), sec);
        var value := positions'[sec];
        positions' := positions' - {sec};
        cash' := cash' + value;
        records := records + [TerminationRecord(sec, step.markDate, index, value)];
      } else {
        assert positions' - {sec} == positions';
        assert Without(closed, done) - {sec} == Without(closed, done);
      }
      todo := todo - {sec};
      done := done + {sec};
    }
    assert done == step.terminated;
    EverythingDropped(positions, step);
    EmptySum();
    NoRecord(positions, step, index);
  }

  // ---------------------------------------------------------------- one mark step

  method MarkStepRun(r: Running, step: MarkStep, index: nat) returns (res: Result<Running, AccountingError>)
    requires r.book.positions.Keys <= r.factors.Keys
    ensures res == Mark(r, step, index)
    ensures res.Success? ==> res.value.book.positions.Keys <= res.value.factors.Keys
  {
    hide MapSum, Moved, Compounded, Contributions, Closed, Surviving, NonZero, Records, AbsValues;
    var ok, moved, factors, pnl := ApplyReturns(r.book.positions, r.factors, step);
    if !ok {
      return Failure(MissingReturn);
    }
    var open, cash, records := CloseTerminated(moved, r.book.cash, step, index);
    var positions := NonZero(open);
    var book := Book(cash, positions, r.book.banned + step.terminated);
    KeysShrink(r, step);
    var value := SumValues(positions);
    var navStep := cash + value;
    if navStep <= 0.0 {
      return Failure(NonPositiveNav);
    }
    var gross := SumValues(AbsValues(positions));
    var row := StepRow(index, step.markDate, pnl, navStep, gross / navStep, value / navStep);
    assert row == RowOf(book, pnl, step, index);
    res := Success(Running(book, factors, r.pnls + [pnl], r.steps + [row], r.terminations + records));
  }

  lemma KeysShrink(r: Running, step: MarkStep)
    ensures NonZero(Surviving(Moved(r.book.positions, step), step)).Keys <= r.book.positions.Keys
    ensures Compounded(r.factors, r.book.positions.Keys, step).Keys == r.factors.Keys
  {
  }

  // ---------------------------------------------------------------- one period

  /** Trade to target and charge: the request shown to the cost hook, and the state it leaves. */
  method OpenPeriodRun(run: Run, period: RebalancePeriod, model: CostModel)
    returns (res: Result<Running, AccountingError>, request: ChargeRequest, charges: Charges)
    ensures res == OpenPeriod(run, period, model)
    ensures res.Success? ==> request == Request(run.book, period) && charges == model(request)
    ensures res.Success? ==> res.value.book.positions == TargetValues(period.target.weights, Nav(run.book))
  {
    hide MapSum, TradeList, TargetValues, AbsValues, Shorts;
    var book := run.book;
    var held := SumValues(book.positions);
    var navStart := book.cash + held;
    request := ChargeRequest(period.rebalanceDate, navStart, map[], 0.0, 0.0, 0.0, period.dayCountFraction);
    charges := Charges(0.0, 0.0);
    if navStart <= 0.0 {
      return Failure(NonPositiveNav), request, charges;
    }
    if !(period.target.weights.Keys !! book.banned) {
      return Failure(TerminatedSecurity), request, charges;
    }
    var targets := TargetValues(period.target.weights, navStart);
    var trades := BuildTrades(book.positions, targets);
    var twoWay := SumValues(AbsValues(trades));
    var spent := SumValues(trades);
    var shortNotional := SumValues(Shorts(targets));
    request := ChargeRequest(period.rebalanceDate, navStart, trades, 0.5 * twoWay, twoWay, shortNotional,
                             period.dayCountFraction);
    charges := model(request);
    if charges.cost < 0.0 || charges.borrow < 0.0 {
      return Failure(NegativeCharge), request, charges;
    }
    var factors := map k | k in period.target.weights :: 1.0;
    res := Success(Running(Book(book.cash - spent - charges.cost, targets, book.banned), factors, [],
                           run.steps, run.terminations));
  }

  method MarkStepsRun(start: Running, steps: seq<MarkStep>, index: nat) returns (res: Result<Running, AccountingError>)
    requires start.book.positions.Keys <= start.factors.Keys
    ensures res == MarkTo(start, steps, |steps|, index)
  {
    hide Mark;
    res := Success(start);
    for i := 0 to |steps|
      invariant res.Success? && res == MarkTo(start, steps, i, index)
      invariant res.value.book.positions.Keys <= res.value.factors.Keys
    {
      res := MarkStepRun(res.value, steps[i], index);
      assert res == MarkTo(start, steps, i + 1, index);
      if res.Failure? {
        FailureSticks(start, steps, i + 1, |steps|, index);
        return;
      }
    }
  }

  lemma {:induction false} FailureSticks(r: Running, steps: seq<MarkStep>, n: nat, m: nat, index: nat)
    requires n <= m <= |steps| && MarkTo(r, steps, n, index).Failure?
    ensures MarkTo(r, steps, m, index) == MarkTo(r, steps, n, index)
    decreases m - n
  {
    hide Mark;
    if n < m {
      FailureSticks(r, steps, n, m - 1, index);
    }
  }

  method SumList(values: seq<real>) returns (total: real)
    ensures total == Sum(values)
  {
    total := 0.0;
    for i := 0 to |values|
      invariant total == Sum(values[..i])
    {
      assert values[..i + 1] == values[..i] + [values[i]];
      SumAppend(values[..i], values[i]);
      total := total + values[i];
    }
    assert values[..|values|] == values;
  }

  method ClosePeriodRun(r: Running, start: Book, period: RebalancePeriod, request: ChargeRequest, charges: Charges, index: nat)
    returns (row: PeriodRow)
    requires Nav(start) > 0.0 && period.steps != [] && request == Request(start, period)
    ensures row == CloseRow(r, start, period, charges, index)
  {
    hide MapSum, TargetValues, AbsValues, Earned, Sum, TradeList, Shorts;
    var navStart := request.nav;
    var targets := TargetValues(period.target.weights, navStart);
    var gross := SumValues(AbsValues(targets));
    var net := SumValues(targets);
    var value := SumValues(r.book.positions);
    var grossPnl := SumList(r.pnls);
    var netPnl := grossPnl - charges.cost - charges.borrow;
    var portfolioReturn := netPnl / navStart;
    var earned := SumValues(Earned(period.target.weights, r.factors));
    var checkReturn := earned - (charges.cost + charges.borrow) / navStart;
    row := PeriodRow(index, period.rebalanceDate, period.steps[|period.steps| - 1].markDate,
                     navStart, r.book.cash - charges.borrow + value, gross / navStart, net / navStart,
                     request.tradedOneWay, request.tradedOneWay / navStart, request.tradedTwoWay / navStart,
                     grossPnl, charges.cost, charges.borrow, netPnl,
                     portfolioReturn, checkReturn, portfolioReturn - checkReturn);
  }

  method AccountPeriod(run: Run, period: RebalancePeriod, index: nat, model: CostModel)
    returns (res: Result<Run, AccountingError>)
    requires ValidPeriod(period)
    ensures res == RunPeriod(run, period, index, model)
  {
    hide MarkTo, Request, CloseRow, MapSum, TargetValues;
    var opened', request, charges := OpenPeriodRun(run, period, model);
    if opened'.Failure? {
      return Failure(opened'.error);
    }
    StartKeys(run, period, model);
    var marked := MarkStepsRun(opened'.value, period.steps, index);
    if marked.Failure? {
      return Failure(marked.error);
    }
    var r := marked.value;
    var row := ClosePeriodRun(r, run.book, period, request, charges, index);
    if Abs(row.residual) > RECONCILIATION_TOLERANCE {
      return Failure(ReconciliationFailure);
    }
    res := Success(Run(r.book.(cash := r.book.cash - charges.borrow), run.rows + [row], r.steps, r.terminations));
  }

  lemma StartKeys(run: Run, period: RebalancePeriod, model: CostModel)
    requires OpenPeriod(run, period, model).Success?
    ensures var start := OpenPeriod(run, period, model).value;
            start.book.positions.Keys <= start.factors.Keys && Nav(run.book) > 0.0
  {
    hide MapSum, Request, Times;
  }

  // ---------------------------------------------------------------- the whole run

  /** Runs the ledger. The result is the state machine's report, so every theorem about the report
      holds of what this method returns. */
  method RunAccounting(periods: seq<RebalancePeriod>, initialNav: real, model: CostModel)
    returns (res: Result<LedgerReport, AccountingError>)
    requires AllValid(periods)
    ensures res == Report(periods, initialNav, model)
  {
    hide RunPeriod, ValidPeriod;
    if initialNav <= 0.0 || !ScheduleOk(periods) {
      return Failure(ScheduleError);
    }
    var run := Run(Book(initialNav, map[], {}), [], [], []);
    for index := 0 to |periods|
      invariant RunTo(periods, index, initialNav, model) == Success(run)
    {
      assert ValidPeriod(periods[index]);
      var step := AccountPeriod(run, periods[index], index, model);
      assert step == RunTo(periods, index + 1, initialNav, model);
      if step.Failure? {
        RunFailureSticks(periods, index + 1, |periods|, initialNav, model);
        return Failure(step.error);
      }
      run := step.value;
    }
    res := Success(LedgerReport(run.rows, run.steps, run.terminations, run.rows[|run.rows| - 1].navEnd,
                                run.book.cash, run.book.positions));
  }

  lemma {:induction false} RunFailureSticks(
      periods: seq<RebalancePeriod>, n: nat, m: nat, initialNav: real, model: CostModel)
    requires n <= m <= |periods| && AllValid(periods)
    requires RunTo(periods, n, initialNav, model).Failure?
    ensures RunTo(periods, m, initialNav, model) == RunTo(periods, n, initialNav, model)
    decreases m - n
  {
    hide RunPeriod, ValidPeriod;
    if n < m {
      RunFailureSticks(periods, n, m - 1, initialNav, model);
    }
  }
}

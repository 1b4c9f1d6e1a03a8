/** Why the ledger refuses a schedule, in terms of the schedule, the opening NAV and the cost hook. */
module LedgerRefusals {
  import opened Sums
  import opened Ordering
  import opened Wrappers
  import opened Ledger
  import opened LedgerTheorems
  import opened LedgerExposure

  /** The schedule itself is at fault: no money, no period, or a rebalance before the last mark of the period before. */
  predicate BadSchedule(periods: seq<RebalancePeriod>, initialNav: real)
    requires AllValid(periods)
  {
    || initialNav <= 0.0 || periods == []
    || exists i :: 0 < i < |periods| && RebalancesTooEarly(periods[i - 1], periods[i])
  }

  predicate RebalancesTooEarly(before: RebalancePeriod, period: RebalancePeriod)
    requires ValidPeriod(before)
  {
    exists j :: 0 <= j < |before.steps| && period.rebalanceDate < before.steps[j].markDate
  }

  /** The name has been terminated by a step of an earlier period, held or not. */
  ghost predicate TerminatedBefore(periods: seq<RebalancePeriod>, n: nat, k: Id)
    requires n <= |periods|
  {
    exists i :: 0 <= i < n && k in FrozenBy(periods[i].steps, |periods[i].steps|)
  }

  /** NAV after n steps of a period that started at nav and paid cost. */
  ghost function NavAt(period: RebalancePeriod, nav: real, cost: real, n: nat): real
    requires n <= |period.steps|
  {
    nav - cost + Times(nav, MapSum(ReturnsTo(period, n)))
  }

  ghost predicate ChargesBadly(period: RebalancePeriod, nav: real, held: map<Id, real>, model: CostModel) {
    exists request :: AsksFor(request, period, nav, held) && (model(request).cost < 0.0 || model(request).borrow < 0.0)
  }

  ghost predicate LacksReturn(period: RebalancePeriod, nav: real, n: nat, k: Id)
    requires n < |period.steps|
  {
    k in Drifted(period, nav, n) && k !in period.steps[n].stepReturns
  }

  ghost predicate FallsToNothing(period: RebalancePeriod, nav: real, held: map<Id, real>, model: CostModel, n: nat)
    requires n <= |period.steps|
  {
    exists request :: AsksFor(request, period, nav, held) && NavAt(period, nav, model(request).cost, n) <= 0.0
  }

  /** Period n cannot be run from the given NAV and held values, for the given reason. */
  ghost predicate RefusedIn(
      periods: seq<RebalancePeriod>, n: nat, nav: real, held: map<Id, real>, model: CostModel, e: AccountingError)
    requires n < |periods|
  {
    var period := periods[n];
    match e
    case NonPositiveNav =>
      nav <= 0.0 || exists j :: 0 < j <= |period.steps| && FallsToNothing(period, nav, held, model, j)
    case TerminatedSecurity => exists k :: k in period.target.weights && TerminatedBefore(periods, n, k)
    case NegativeCharge => ChargesBadly(period, nav, held, model)
    case MissingReturn => exists j, k :: 0 <= j < |period.steps| && LacksReturn(period, nav, j, k)
    case _ => false
  }

  // ---------------------------------------------------------------- the schedule

  lemma LastMark(period: RebalancePeriod, j: nat)
    requires ValidPeriod(period) && j < |period.steps|
    ensures period.steps[j].markDate <= period.steps[|period.steps| - 1].markDate
    decreases |period.steps| - j
  {
    if j < |period.steps| - 1 {
      LastMark(period, j + 1);
    }
  }

  lemma ScheduleIff(periods: seq<RebalancePeriod>, initialNav: real)
    requires AllValid(periods)
    ensures initialNav <= 0.0 || !ScheduleOk(periods) <==> BadSchedule(periods, initialNav)
  {
    hide ValidPeriod;
    forall i {:trigger periods[i]} | 0 < i < |periods|
      ensures periods[i - 1].steps != []
              && (RebalancesTooEarly(periods[i - 1], periods[i])
                  <==> periods[i].rebalanceDate < periods[i - 1].steps[|periods[i - 1].steps| - 1].markDate)
    {
      StepsNonEmpty(periods[i - 1]);
      TooEarlyIff(periods[i - 1], periods[i]);
    }
  }

  lemma TooEarlyIff(before: RebalancePeriod, period: RebalancePeriod)
    requires ValidPeriod(before)
    ensures RebalancesTooEarly(before, period) <==> period.rebalanceDate < before.steps[|before.steps| - 1].markDate
  {
    forall j | 0 <= j < |before.steps| ensures before.steps[j].markDate <= before.steps[|before.steps| - 1].markDate {
      LastMark(before, j);
    }
  }

  // ---------------------------------------------------------------- who is banned

  lemma {:induction false} MarkBans(r: Running, steps: seq<MarkStep>, n: nat, index: nat)
    requires n <= |steps| && MarkTo(r, steps, n, index).Success?
    ensures MarkTo(r, steps, n, index).value.book.banned == r.book.banned + FrozenBy(steps, n)
  {
    hide Moved, Closed, Surviving, NonZero, MapSum, Contributions, Records, RowOf, Compounded;
    if n > 0 {
      MarkBans(r, steps, n - 1, index);
    }
  }

  lemma {:induction false} BannedIff(periods: seq<RebalancePeriod>, n: nat, initialNav: real, model: CostModel, k: Id)
    requires n <= |periods| && AllValid(periods) && RunTo(periods, n, initialNav, model).Success?
    ensures k in RunTo(periods, n, initialNav, model).value.book.banned <==> TerminatedBefore(periods, n, k)
  {
    hide MarkTo, Request, CloseRow, ValidPeriod, FrozenBy;
    if n > 0 {
      BannedIff(periods, n - 1, initialNav, model, k);
      var start := OpenPeriod(RunTo(periods, n - 1, initialNav, model).value, periods[n - 1], model).value;
      MarkBans(start, periods[n - 1].steps, |periods[n - 1].steps|, n - 1);
      if TerminatedBefore(periods, n, k) && k !in FrozenBy(periods[n - 1].steps, |periods[n - 1].steps|) {
        var i :| 0 <= i < n && k in FrozenBy(periods[i].steps, |periods[i].steps|);
        assert i < n - 1;
      }
    }
  }

  // ---------------------------------------------------------------- one period

  /** Marking fails for a held name without a return, or for a NAV that is not positive. */
  lemma MarkRefused(r: Running, period: RebalancePeriod, index: nat, nav: real, cost: real, n: nat)
    requires ValidPeriod(period) && n < |period.steps| && nav > 0.0
    requires PathsAgree(r, period.target.weights, nav, cost) && FactorsMatch(r, period.steps, n, period.target.weights)
    requires Mark(r, period.steps[n], index).Failure?
    ensures Mark(r, period.steps[n], index).error == MissingReturn ==> exists k :: LacksReturn(period, nav, n, k)
    ensures Mark(r, period.steps[n], index).error == NonPositiveNav ==> NavAt(period, nav, cost, n + 1) <= 0.0
    ensures Mark(r, period.steps[n], index).error == MissingReturn || Mark(r, period.steps[n], index).error == NonPositiveNav
  {
    hide Times, MapSum, Contributions, PathsAgree, FactorsMatch, ReturnsTo, Drifted, ValidPeriod, AfterMark, Nav;
    var step := period.steps[n];
    BookInside(r, period, n, nav, cost);
    if !(r.book.positions.Keys <= step.stepReturns.Keys) {
      var k :| k in r.book.positions && k !in step.stepReturns;
      assert LacksReturn(period, nav, n, k);
    } else {
      NavAfterStep(r, period, nav, cost, n);
    }
  }

  /** NAV after the next step, whether or not it is accepted. */
  lemma NavAfterStep(r: Running, period: RebalancePeriod, nav: real, cost: real, n: nat)
    requires ValidPeriod(period) && n < |period.steps| && nav > 0.0
    requires PathsAgree(r, period.target.weights, nav, cost) && FactorsMatch(r, period.steps, n, period.target.weights)
    ensures Nav(AfterMark(r, period.steps[n])) == NavAt(period, nav, cost, n + 1)
  {
    hide Times, MapSum, Contributions, Nav, AfterMark, Growth;
    var weights, step := period.target.weights, period.steps[n];
    MarkValue(r, step);
    EarnedGrows(weights, nav, r, step);
    var after := Compounded(r.factors, r.book.positions.Keys, step);
    EarnedScales(weights, nav, after);
    forall k | k in weights ensures Earned(weights, after)[k] == ReturnsTo(period, n + 1)[k] {
      FactorAfter(r, period, nav, n, k);
    }
    assert Earned(weights, after) == ReturnsTo(period, n + 1);
  }

  lemma FactorAfter(r: Running, period: RebalancePeriod, nav: real, n: nat, k: Id)
    requires n < |period.steps| && k in period.target.weights
    requires FactorsMatch(r, period.steps, n, period.target.weights)
    ensures Compounded(r.factors, r.book.positions.Keys, period.steps[n])[k] == PathFactor(period.steps, n + 1, k)
  {
    hide Times, Growth;
    TimesByZero(Growth(period.steps[n], k));
  }

  lemma {:induction false} MarkToRefused(
      start: Running, period: RebalancePeriod, index: nat, nav: real, cost: real, n: nat)
    returns (j: nat)
    requires ValidPeriod(period) && n <= |period.steps| && nav > 0.0
    requires PathsAgree(start, period.target.weights, nav, cost)
    requires start.book.positions.Keys == period.target.weights.Keys && forall k :: k in start.factors ==> start.factors[k] == 1.0
    requires MarkTo(start, period.steps, n, index).Failure?
    ensures j < n
    ensures var e := MarkTo(start, period.steps, n, index).error;
            && (e == MissingReturn || e == NonPositiveNav)
            && (e == MissingReturn ==> exists k :: LacksReturn(period, nav, j, k))
            && (e == NonPositiveNav ==> NavAt(period, nav, cost, j + 1) <= 0.0)
  {
    hide PathsAgree, FactorsMatch, Mark, ValidStep, ValidPortfolio, NavAt, LacksReturn;
    if MarkTo(start, period.steps, n - 1, index).Failure? {
      j := MarkToRefused(start, period, index, nav, cost, n - 1);
    } else {
      j := n - 1;
      ValidAt(period, j);
      MarkToAgrees(start, period.steps, j, index, period.target.weights, nav, cost);
      MarkToFactorsMatch(start, period.steps, j, index, period.target.weights, nav, cost);
      MarkRefused(MarkTo(start, period.steps, j, index).value, period, index, nav, cost, j);
    }
  }

  lemma PeriodRefused(periods: seq<RebalancePeriod>, n: nat, run: Run, model: CostModel)
    requires n < |periods| && ValidPeriod(periods[n]) && RunPeriod(run, periods[n], n, model).Failure?
    requires forall k :: k in run.book.banned <==> TerminatedBefore(periods, n, k)
    ensures RefusedIn(periods, n, Nav(run.book), run.book.positions, model, RunPeriod(run, periods[n], n, model).error)
  {
    hide Request, MapSum, MarkTo, PathsAgree, AsksFor, NavAt, LacksReturn, TerminatedBefore, ValidPeriod, Nav;
    var period, nav := periods[n], Nav(run.book);
    StepsNonEmpty(period);
    PeriodReconciles(run, period, n, model);
    if nav > 0.0 {
      RequestAsks(run.book, period);
      var started := OpenPeriod(run, period, model);
      if started.Success? {
        var cost := model(Request(run.book, period)).cost;
        OpenAgrees(run, period, model);
        OpenedWith(run, period, model);
        var j := MarkToRefused(started.value, period, n, nav, cost, |period.steps|);
        if RunPeriod(run, period, n, model).error == NonPositiveNav {
          assert FallsToNothing(period, nav, run.book.positions, model, j + 1);
        }
      }
    }
  }

  // ---------------------------------------------------------------- the whole schedule

  /** The first period that is refused, and the run up to it. */
  lemma {:induction false} FirstRefused(periods: seq<RebalancePeriod>, m: nat, initialNav: real, model: CostModel) returns (n: nat)
    requires m <= |periods| && AllValid(periods) && RunTo(periods, m, initialNav, model).Failure?
    ensures n < m && RunTo(periods, n, initialNav, model).Success?
    ensures RunTo(periods, n + 1, initialNav, model).Failure?
    ensures RunTo(periods, n + 1, initialNav, model).error == RunTo(periods, m, initialNav, model).error
  {
    hide RunPeriod;
    if RunTo(periods, m - 1, initialNav, model).Failure? {
      n := FirstRefused(periods, m - 1, initialNav, model);
    } else {
      n := m - 1;
    }
  }

  /**
   * A refused run is refused for its schedule, or at the first period that cannot be run from what the
   * periods before left, for the reason given.
   */
  lemma RefusalMeans(periods: seq<RebalancePeriod>, initialNav: real, model: CostModel)
    requires AllValid(periods) && Report(periods, initialNav, model).Failure?
    ensures Report(periods, initialNav, model).error == ScheduleError <==> BadSchedule(periods, initialNav)
    ensures !BadSchedule(periods, initialNav) ==>
              exists n, nav, rows :: RefusedAt(periods, n, nav, rows, initialNav, model, Report(periods, initialNav, model).error)
  {
    hide RunPeriod, RefusedIn, HeldBefore, RunMeans, ValidPeriod, Nav, ScheduleOk, BadSchedule, Chained, RowReconciles;
    ScheduleIff(periods, initialNav);
    if initialNav > 0.0 && ScheduleOk(periods) {
      var e := Report(periods, initialNav, model).error;
      var n := FirstRefused(periods, |periods|, initialNav, model);
      var run := RunTo(periods, n, initialNav, model).value;
      StepsPresent(periods, n);
      RowsOfRun(periods, n, initialNav, model);
      RunReconciles(periods, n, initialNav, model);
      forall k ensures k in run.book.banned <==> TerminatedBefore(periods, n, k) {
        BannedIff(periods, n, initialNav, model, k);
      }
      PeriodRefused(periods, n, run, model);
      assert RefusedAt(periods, n, Nav(run.book), run.rows, initialNav, model, e);
      NoScheduleError(periods, n, Nav(run.book), HeldBefore(periods, run.rows, n), model);
    }
  }

  /** Period n is refused after n rows that chain up to the given NAV. */
  ghost predicate RefusedAt(
      periods: seq<RebalancePeriod>, n: nat, nav: real, rows: seq<PeriodRow>, initialNav: real, model: CostModel, e: AccountingError)
  {
    && n < |periods| && |rows| == n
    && AllReconcile(rows, periods) && Chained(rows, initialNav, nav)
    && RefusedIn(periods, n, nav, HeldBefore(periods, rows, n), model, e)
  }

  lemma NoScheduleError(periods: seq<RebalancePeriod>, n: nat, nav: real, held: map<Id, real>, model: CostModel)
    requires n < |periods|
    ensures !RefusedIn(periods, n, nav, held, model, ScheduleError)
  {
  }

  // ---------------------------------------------------------------- what success rules out

  /** Where a run succeeds every held name had its return, and no target brought a terminated name back. */
  lemma SuccessMeans(periods: seq<RebalancePeriod>, initialNav: real, model: CostModel, i: nat, j: nat, k: Id)
    requires AllValid(periods) && Report(periods, initialNav, model).Success? && i < |periods| && j < |periods[i].steps|
    ensures !BadSchedule(periods, initialNav)
    ensures i < |Report(periods, initialNav, model).value.periods|
    ensures !LacksReturn(periods[i], Report(periods, initialNav, model).value.periods[i].navStart, j, k)
    ensures k in periods[i].target.weights ==> !TerminatedBefore(periods, i, k)
  {
    hide RunPeriod, ValidPeriod, Nav, ScheduleOk, BadSchedule, LacksReturn, TerminatedBefore;
    ScheduleIff(periods, initialNav);
    Reached(periods, i, |periods|, initialNav, model);
    StepsPresent(periods, i);
    var run := RunTo(periods, i, initialNav, model).value;
    BannedIff(periods, i, initialNav, model, k);
    PeriodSucceeded(run, periods[i], i, model, j, k);
    PeriodMeans(run, periods[i], i, model);
  }

  lemma {:induction false} Reached(periods: seq<RebalancePeriod>, i: nat, n: nat, initialNav: real, model: CostModel)
    requires i < n <= |periods| && AllValid(periods) && RunTo(periods, n, initialNav, model).Success?
    ensures RunTo(periods, i, initialNav, model).Success?
    ensures periods[i].steps != []
    ensures RunPeriod(RunTo(periods, i, initialNav, model).value, periods[i], i, model).Success?
    ensures var next := RunPeriod(RunTo(periods, i, initialNav, model).value, periods[i], i, model).value.rows;
            var rows := RunTo(periods, n, initialNav, model).value.rows;
            |next| == i + 1 <= |rows| && rows[i] == next[i]
  {
    hide RunPeriod;
    StepsPresent(periods, i);
    if i + 1 < n {
      Reached(periods, i, n - 1, initialNav, model);
      var run := RunTo(periods, n - 1, initialNav, model).value;
      StepsPresent(periods, n - 1);
      PeriodReconciles(run, periods[n - 1], n - 1, model);
      var rows := RunTo(periods, n, initialNav, model).value.rows;
      assert rows[i] == rows[..|run.rows|][i];
    }
  }

  lemma PeriodSucceeded(run: Run, period: RebalancePeriod, index: nat, model: CostModel, j: nat, k: Id)
    requires ValidPeriod(period) && RunPeriod(run, period, index, model).Success? && j < |period.steps|
    ensures !LacksReturn(period, Nav(run.book), j, k)
    ensures k in period.target.weights ==> k !in run.book.banned
  {
    hide Request, MapSum, MarkTo, PathsAgree, FactorsMatch, Nav, Drifted, Mark, ValidStep, ValidPortfolio;
    var start := OpenPeriod(run, period, model).value;
    var nav, cost := Nav(run.book), model(Request(run.book, period)).cost;
    MarkedSoFar(start, period.steps, j + 1, |period.steps|, index);
    OpenAgrees(run, period, model);
    OpenedWith(run, period, model);
    ValidAt(period, j);
    MarkToAgrees(start, period.steps, j, index, period.target.weights, nav, cost);
    MarkToFactorsMatch(start, period.steps, j, index, period.target.weights, nav, cost);
    var r := MarkTo(start, period.steps, j, index).value;
    BookInside(r, period, j, nav, cost);
    MarkedHasReturns(r, period.steps[j], index);
  }

  lemma {:induction false} MarkedSoFar(r: Running, steps: seq<MarkStep>, j: nat, n: nat, index: nat)
    requires 0 < j <= n <= |steps| && MarkTo(r, steps, n, index).Success?
    ensures MarkTo(r, steps, j - 1, index).Success? && Mark(MarkTo(r, steps, j - 1, index).value, steps[j - 1], index).Success?
    decreases n
  {
    hide Mark;
    if j < n {
      MarkedSoFar(r, steps, j, n - 1, index);
    }
  }

  lemma MarkedHasReturns(r: Running, step: MarkStep, index: nat)
    requires Mark(r, step, index).Success?
    ensures r.book.positions.Keys <= step.stepReturns.Keys
  {
  }
}

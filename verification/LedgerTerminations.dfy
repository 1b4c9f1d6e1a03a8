/** Terminal events are realised exactly once. */
module LedgerTerminations {
  import opened Sums
  import opened Ordering
  import opened Ledger
  import opened LedgerTheorems

  ghost predicate DistinctIds(ts: seq<TerminationRecord>) {
    forall i, j :: 0 <= i < j < |ts| ==> ts[i].securityId != ts[j].securityId
  }

  ghost predicate AllBanned(ts: seq<TerminationRecord>, banned: set<Id>) {
    forall i :: 0 <= i < |ts| ==> ts[i].securityId in banned
  }

  ghost predicate HasRecord(ts: seq<TerminationRecord>, k: Id) {
    exists i :: 0 <= i < |ts| && ts[i].securityId == k
  }

  /** The records of one step are exactly the held terminated names, each once, at its moved value. */
  lemma {:induction false} RecordsFacts(ids: set<Id>, moved: map<Id, real>, step: MarkStep, index: nat)
    ensures var ts := Records(ids, moved, step, index);
            && DistinctIds(ts)
            && (forall i :: 0 <= i < |ts| ==>
                  ts[i].securityId in ids && ts[i].securityId in moved
                  && ts[i] == TerminationRecord(ts[i].securityId, step.markDate, index, moved[ts[i].securityId]))
            && (forall k :: k in ids && k in moved ==> HasRecord(ts, k))
    decreases |ids|
  {
    if ids != {} {
      var first := Least(ids);
      RecordsFacts(ids - {first}, moved, step, index);
      var rest := Records(ids - {first}, moved, step, index);
      var head := if first in moved then [TerminationRecord(first, step.markDate, index, moved[first])] else [];
      assert Records(ids, moved, step, index) == head + rest;
      forall k | k in ids && k in moved ensures HasRecord(head + rest, k) {
        if k == first {
          assert head[0].securityId == k;
        }
        HasRecordConcat(head, rest, k);
      }
    }
  }

  ghost function StepRecords(r: Running, step: MarkStep, index: nat): seq<TerminationRecord> {
    Records(step.terminated, Moved(r.book.positions, step), step, index)
  }

  lemma StepRecordsFacts(r: Running, step: MarkStep, index: nat)
    ensures var ts := StepRecords(r, step, index);
            && DistinctIds(ts)
            && (forall i :: 0 <= i < |ts| ==>
                  && ts[i].securityId in step.terminated && ts[i].securityId in r.book.positions
                  && ts[i].periodIndex == index && ts[i].markDate == step.markDate
                  && ts[i].valueRealized == Times(r.book.positions[ts[i].securityId], Growth(step, ts[i].securityId)))
            && (forall k :: k in step.terminated && k in r.book.positions ==> HasRecord(ts, k))
  {
    hide Times, Growth;
    RecordsFacts(step.terminated, Moved(r.book.positions, step), step, index);
  }

  lemma MarkTerminations(r: Running, step: MarkStep, index: nat)
    requires DistinctIds(r.terminations) && AllBanned(r.terminations, r.book.banned)
    requires r.book.positions.Keys !! r.book.banned
    requires Mark(r, step, index).Success?
    ensures var s := Mark(r, step, index).value;
            && DistinctIds(s.terminations) && AllBanned(s.terminations, s.book.banned)
            && s.terminations == r.terminations + StepRecords(r, step, index)
            && s.book.banned == r.book.banned + step.terminated
  {
    hide Times, Growth, MapSum, RowOf, Records;
    StepRecordsFacts(r, step, index);
  }

  // ---------------------------------------------------------------- inside one period

  /** The name is held when a step first terminates it. */
  ghost predicate Realized(steps: seq<MarkStep>, n: nat, k: Id)
    requires n <= |steps|
  {
    n > 0 && (|| Realized(steps, n - 1, k)
              || (k in steps[n - 1].terminated && k !in FrozenBy(steps, n - 1) && PathFactor(steps, n - 1, k) != 0.0))
  }

  ghost predicate FirstTerminatedAt(steps: seq<MarkStep>, j: nat, k: Id)
    requires j < |steps|
  {
    k in steps[j].terminated && k !in FrozenBy(steps, j)
  }

  /** A record belongs to a period: a target name, first terminated at the dated step, at its frozen value. */
  ghost predicate RecordOf(t: TerminationRecord, period: RebalancePeriod, n: nat, navStart: real, index: nat)
    requires n <= |period.steps|
  {
    && t.periodIndex == index
    && t.securityId in period.target.weights
    && (exists j :: 0 <= j < n && FirstTerminatedAt(period.steps, j, t.securityId) && t.markDate == period.steps[j].markDate)
    && t.securityId in FrozenBy(period.steps, n)
    && t.valueRealized == Times(Times(period.target.weights[t.securityId], navStart), PathFactor(period.steps, n, t.securityId))
  }

  lemma {:induction false} FrozenGrows(steps: seq<MarkStep>, n: nat, m: nat, k: Id)
    requires n <= m <= |steps| && k in FrozenBy(steps, n)
    ensures k in FrozenBy(steps, m) && PathFactor(steps, m, k) == PathFactor(steps, n, k)
    decreases m - n
  {
    if n < m {
      FrozenGrows(steps, n, m - 1, k);
    }
  }

  lemma RecordKept(t: TerminationRecord, period: RebalancePeriod, n: nat, navStart: real, index: nat)
    requires 0 < n <= |period.steps|
    requires RecordOf(t, period, n - 1, navStart, index)
    ensures RecordOf(t, period, n, navStart, index)
  {
    FrozenGrows(period.steps, n - 1, n, t.securityId);
    var j :| 0 <= j < n - 1 && FirstTerminatedAt(period.steps, j, t.securityId) && t.markDate == period.steps[j].markDate;
    assert 0 <= j < n;
  }

  /** The records added in the first n steps of a period. */
  ghost predicate PeriodRecords(ts: seq<TerminationRecord>, period: RebalancePeriod, n: nat, navStart: real, index: nat)
    requires n <= |period.steps|
  {
    && (forall i :: 0 <= i < |ts| ==> RecordOf(ts[i], period, n, navStart, index))
    && (forall k :: k in period.target.weights ==> (HasRecord(ts, k) <==> Realized(period.steps, n, k)))
  }

  lemma NewRecord(r: Running, period: RebalancePeriod, n: nat, navStart: real, index: nat, i: nat)
    requires 0 < n <= |period.steps|
    requires PositionsMatch(r, period.target.weights, navStart)
    requires FactorsMatch(r, period.steps, n - 1, period.target.weights)
    requires i < |StepRecords(r, period.steps[n - 1], index)|
    ensures RecordOf(StepRecords(r, period.steps[n - 1], index)[i], period, n, navStart, index)
  {
    hide Times, Growth;
    var step := period.steps[n - 1];
    StepRecordsFacts(r, step, index);
    var t := StepRecords(r, step, index)[i];
    Associate(Times(period.target.weights[t.securityId], navStart), r.factors[t.securityId], Growth(step, t.securityId));
  }

  lemma RecordsGrow(r: Running, old': seq<TerminationRecord>, period: RebalancePeriod, n: nat, navStart: real, index: nat)
    requires 0 < n <= |period.steps|
    requires PositionsMatch(r, period.target.weights, navStart)
    requires FactorsMatch(r, period.steps, n - 1, period.target.weights)
    requires PeriodRecords(old', period, n - 1, navStart, index)
    ensures PeriodRecords(old' + StepRecords(r, period.steps[n - 1], index), period, n, navStart, index)
  {
    hide RecordOf, PositionsMatch, StepRecords;
    var step := period.steps[n - 1];
    var added := StepRecords(r, step, index);
    var ts := old' + added;
    forall i | 0 <= i < |ts| ensures RecordOf(ts[i], period, n, navStart, index) {
      if i < |old'| {
        RecordKept(old'[i], period, n, navStart, index);
      } else {
        NewRecord(r, period, n, navStart, index, i - |old'|);
      }
    }
    StepRecordsFacts(r, step, index);
    forall k | k in period.target.weights ensures HasRecord(ts, k) <==> Realized(period.steps, n, k) {
      HasRecordConcat(old', added, k);
    }
  }

  lemma HasRecordConcat(a: seq<TerminationRecord>, b: seq<TerminationRecord>, k: Id)
    ensures HasRecord(a + b, k) <==> HasRecord(a, k) || HasRecord(b, k)
  {
    if HasRecord(a, k) {
      var i :| 0 <= i < |a| && a[i].securityId == k;
      assert (a + b)[i].securityId == k;
    }
    if HasRecord(b, k) {
      var i :| 0 <= i < |b| && b[i].securityId == k;
      assert (a + b)[|a| + i].securityId == k;
    }
  }

  lemma Separate(r: Running, weights: map<Id, real>, nav: real, cost: real)
    requires PathsAgree(r, weights, nav, cost)
    ensures PositionsMatch(r, weights, nav)
    ensures r.book.positions.Keys !! r.book.banned
  {
  }

  lemma NoRecords(period: RebalancePeriod, nav: real, index: nat)
    ensures PeriodRecords([], period, 0, nav, index)
  {
  }

  /** Everything one period does to the termination records. */
  lemma {:induction false} PeriodTerminations(
      start: Running, period: RebalancePeriod, n: nat, index: nat, nav: real, cost: real)
    returns (added: seq<TerminationRecord>)
    requires ValidPeriod(period) && n <= |period.steps| && nav > 0.0
    requires PathsAgree(start, period.target.weights, nav, cost)
    requires start.book.positions.Keys == period.target.weights.Keys
    requires forall k :: k in start.factors ==> start.factors[k] == 1.0
    requires DistinctIds(start.terminations) && AllBanned(start.terminations, start.book.banned)
    requires MarkTo(start, period.steps, n, index).Success?
    ensures var r := MarkTo(start, period.steps, n, index).value;
            && r.terminations == start.terminations + added
            && DistinctIds(r.terminations) && AllBanned(r.terminations, r.book.banned)
            && r.book.banned == start.book.banned + FrozenBy(period.steps, n)
    ensures PeriodRecords(added, period, n, nav, index)
  {
    hide PathsAgree, Mark, Nav, MapSum, FactorsMatch, PeriodRecords, StepRecords, DistinctIds, AllBanned, PositionsMatch;
    if n == 0 {
      added := [];
      NoRecords(period, nav, index);
    } else {
      var before := PeriodTerminations(start, period, n - 1, index, nav, cost);
      var r := MarkTo(start, period.steps, n - 1, index).value;
      MarkToAgrees(start, period.steps, n - 1, index, period.target.weights, nav, cost);
      MarkToFactorsMatch(start, period.steps, n - 1, index, period.target.weights, nav, cost);
      Separate(r, period.target.weights, nav, cost);
      MarkTerminations(r, period.steps[n - 1], index);
      added := before + StepRecords(r, period.steps[n - 1], index);
      assert start.terminations + added == r.terminations + StepRecords(r, period.steps[n - 1], index);
      RecordsGrow(r, before, period, n, nav, index);
    }
  }

  // ---------------------------------------------------------------- whole runs

  ghost predicate HasRecordIn(ts: seq<TerminationRecord>, k: Id, index: nat) {
    exists i :: 0 <= i < |ts| && ts[i].securityId == k && ts[i].periodIndex == index
  }

  /** A record names its period and carries the frozen value of that period's target. */
  ghost predicate RecordInRun(t: TerminationRecord, periods: seq<RebalancePeriod>, rows: seq<PeriodRow>)
    requires |rows| <= |periods|
  {
    && t.periodIndex < |rows|
    && RecordOf(t, periods[t.periodIndex], |periods[t.periodIndex].steps|, rows[t.periodIndex].navStart, t.periodIndex)
    && forall q :: t.periodIndex < q < |rows| ==> t.securityId !in periods[q].target.weights
  }

  /** The records realise, period by period, exactly the terminal events of held names. */
  ghost predicate RecordsComplete(ts: seq<TerminationRecord>, periods: seq<RebalancePeriod>, n: nat)
    requires n <= |periods|
  {
    forall p, k :: 0 <= p < n && k in periods[p].target.weights ==>
      (HasRecordIn(ts, k, p) <==> Realized(periods[p].steps, |periods[p].steps|, k))
  }

  ghost predicate TerminationsOnce(run: Run, periods: seq<RebalancePeriod>)
    requires |run.rows| <= |periods|
  {
    && DistinctIds(run.terminations)
    && AllBanned(run.terminations, run.book.banned)
    && run.book.positions.Keys !! run.book.banned
    && (forall i :: 0 <= i < |run.terminations| ==> RecordInRun(run.terminations[i], periods, run.rows))
    && RecordsComplete(run.terminations, periods, |run.rows|)
  }

  lemma RecordStaysInRun(t: TerminationRecord, periods: seq<RebalancePeriod>, rows: seq<PeriodRow>, row: PeriodRow)
    requires |rows| < |periods| && RecordInRun(t, periods, rows)
    requires t.securityId !in periods[|rows|].target.weights
    ensures RecordInRun(t, periods, rows + [row])
  {
    hide RecordOf;
  }

  lemma CompletenessGrows(
      ts: seq<TerminationRecord>, added: seq<TerminationRecord>, periods: seq<RebalancePeriod>, n: nat, nav: real)
    requires n < |periods|
    requires RecordsComplete(ts, periods, n)
    requires forall i :: 0 <= i < |ts| ==> ts[i].periodIndex < n
    requires PeriodRecords(added, periods[n], |periods[n].steps|, nav, n)
    ensures RecordsComplete(ts + added, periods, n + 1)
  {
    hide Realized;
    var all := ts + added;
    forall i | 0 <= i < |added| ensures added[i].periodIndex == n {
      assert RecordOf(added[i], periods[n], |periods[n].steps|, nav, n);
    }
    forall p, k | 0 <= p < n + 1 && k in periods[p].target.weights
      ensures HasRecordIn(all, k, p) <==> Realized(periods[p].steps, |periods[p].steps|, k)
    {
      if p < n {
        InFront(ts, added, k, p);
      } else {
        InBack(ts, added, k, n);
      }
    }
  }

  lemma InFront(a: seq<TerminationRecord>, b: seq<TerminationRecord>, k: Id, p: nat)
    requires forall i :: 0 <= i < |b| ==> b[i].periodIndex != p
    ensures HasRecordIn(a + b, k, p) <==> HasRecordIn(a, k, p)
  {
    if HasRecordIn(a, k, p) {
      var i :| 0 <= i < |a| && a[i].securityId == k && a[i].periodIndex == p;
      assert (a + b)[i] == a[i];
    }
  }

  lemma InBack(a: seq<TerminationRecord>, b: seq<TerminationRecord>, k: Id, p: nat)
    requires forall i :: 0 <= i < |a| ==> a[i].periodIndex != p
    requires forall i :: 0 <= i < |b| ==> b[i].periodIndex == p
    ensures HasRecordIn(a + b, k, p) <==> HasRecord(b, k)
  {
    if HasRecord(b, k) {
      var i :| 0 <= i < |b| && b[i].securityId == k;
      assert (a + b)[|a| + i] == b[i];
    }
  }

  /** Over any run each security is terminated at most once, at the frozen value of its target weight;
      it is never held or targeted again; and no held terminal event goes unrecorded. */
  lemma {:induction false} TerminatedOnce(periods: seq<RebalancePeriod>, n: nat, initialNav: real, model: CostModel)
    requires n <= |periods| && AllValid(periods)
    requires RunTo(periods, n, initialNav, model).Success?
    ensures TerminationsOnce(RunTo(periods, n, initialNav, model).value, periods)
  {
    hide TerminationsOnce, RunPeriod;
    if n == 0 {
      NoTerminations(periods, initialNav);
    } else {
      StepsPresent(periods, n - 1);
      TerminatedOnce(periods, n - 1, initialNav, model);
      PeriodKeepsTerminations(RunTo(periods, n - 1, initialNav, model).value, periods, model);
    }
  }

  lemma NoTerminations(periods: seq<RebalancePeriod>, initialNav: real)
    ensures TerminationsOnce(Run(Book(initialNav, map[], {}), [], [], []), periods)
  {
  }

  lemma StartOfPeriod(run: Run, period: RebalancePeriod, model: CostModel)
    requires ValidPeriod(period)
    requires OpenPeriod(run, period, model).Success?
    ensures var start := OpenPeriod(run, period, model).value;
            && PathsAgree(start, period.target.weights, Nav(run.book), model(Request(run.book, period)).cost)
            && start.book.positions.Keys == period.target.weights.Keys
            && (forall k :: k in start.factors ==> start.factors[k] == 1.0)
            && start.terminations == run.terminations && start.book.banned == run.book.banned
            && Nav(run.book) > 0.0
            && period.target.weights.Keys !! run.book.banned
  {
    hide PathsAgree, Times, MapSum, Request;
    OpenAgrees(run, period, model);
  }

  lemma PeriodKeepsTerminations(run: Run, periods: seq<RebalancePeriod>, model: CostModel)
    requires |run.rows| < |periods| && ValidPeriod(periods[|run.rows|])
    requires TerminationsOnce(run, periods)
    requires RunPeriod(run, periods[|run.rows|], |run.rows|, model).Success?
    ensures |RunPeriod(run, periods[|run.rows|], |run.rows|, model).value.rows| == |run.rows| + 1
    ensures TerminationsOnce(RunPeriod(run, periods[|run.rows|], |run.rows|, model).value, periods)
  {
    hide PathsAgree, Times, MapSum, Request, MarkTo, OpenPeriod, RecordInRun, RecordsComplete, RecordOf, FactorsMatch, Nav, CloseRow;
    var n, period := |run.rows|, periods[|run.rows|];
    var start := OpenPeriod(run, period, model).value;
    var nav := Nav(run.book);
    StartOfPeriod(run, period, model);
    var added := PeriodTerminations(start, period, |period.steps|, n, nav, model(Request(run.book, period)).cost);
    PeriodPaths(run, period, n, model);
    var r := MarkTo(start, period.steps, |period.steps|, n).value;
    var after := RunPeriod(run, period, n, model).value;
    var row := after.rows[n];
    RowOpens(r, run, period, model);
    assert after.rows == run.rows + [row];
    Separate(r, period.target.weights, nav, model(Request(run.book, period)).cost);
    forall i | 0 <= i < |after.terminations| ensures RecordInRun(after.terminations[i], periods, after.rows) {
      if i < |run.terminations| {
        assert run.terminations[i].securityId in run.book.banned;
        RecordStaysInRun(run.terminations[i], periods, run.rows, row);
      } else {
        NewRecordInRun(added[i - |run.terminations|], periods, run.rows, row);
      }
    }
    forall i | 0 <= i < |run.terminations| ensures run.terminations[i].periodIndex < n {
      IndexBound(run.terminations[i], periods, run.rows);
    }
    CompletenessGrows(run.terminations, added, periods, n, nav);
  }

  lemma RowOpens(r: Running, run: Run, period: RebalancePeriod, model: CostModel)
    requires ValidPeriod(period) && Nav(run.book) > 0.0
    ensures CloseRow(r, run.book, period, model(Request(run.book, period)), |run.rows|).navStart == Nav(run.book)
  {
    hide Nav, Request, MapSum, Earned;
  }

  lemma NewRecordInRun(t: TerminationRecord, periods: seq<RebalancePeriod>, rows: seq<PeriodRow>, row: PeriodRow)
    requires |rows| < |periods|
    requires RecordOf(t, periods[|rows|], |periods[|rows|].steps|, row.navStart, |rows|)
    ensures RecordInRun(t, periods, rows + [row])
  {
  }

  lemma IndexBound(t: TerminationRecord, periods: seq<RebalancePeriod>, rows: seq<PeriodRow>)
    requires |rows| <= |periods| && RecordInRun(t, periods, rows)
    ensures t.periodIndex < |rows|
  {
  }
}

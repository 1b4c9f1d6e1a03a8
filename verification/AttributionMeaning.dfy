/** What one period's attribution says of each group, and what the drawdown reads, from the inputs. */
module AttributionMeaning {
  import opened Sums
  import opened Ordering
  import opened Wrappers
  import opened Ledger
  import opened LedgerTheorems
  import opened LedgerExposure
  import opened PortfolioMetrics

  /** A mapped name belongs to its own group, and an unmapped one to the bucket for those. */
  predicate Belongs(groups: map<Id, string>, k: Id, g: string) {
    (k in groups && groups[k] == g) || (k !in groups && g == "UNMAPPED")
  }

  /** Weight times path return of the target names of one group. */
  ghost function GroupReturns(period: RebalancePeriod, groups: map<Id, string>, g: string): map<Id, real> {
    map k | k in period.target.weights && Belongs(groups, k, g) ::
      Times(period.target.weights[k], PathFactor(period.steps, |period.steps|, k) - 1.0)
  }

  /** Each group is credited with its own names' returns; the names without a group are listed, and credited together. */
  lemma GroupsMean(row: GroupContribution, period: RebalancePeriod, groups: map<Id, string>)
    requires IsAttribution(row, period, groups)
    ensures row.rebalanceDate == period.rebalanceDate
    ensures forall g :: g in row.contributionByGroup <==> exists k :: k in period.target.weights && Belongs(groups, k, g)
    ensures forall g :: g in row.contributionByGroup ==> row.contributionByGroup[g] == MapSum(GroupReturns(period, groups, g))
    ensures forall k :: k in row.unmappedIds <==> k in period.target.weights && k !in groups
    ensures forall i, j :: 0 <= i < j < |row.unmappedIds| ==> IdLess(row.unmappedIds[i], row.unmappedIds[j])
  {
    hide MapSum, Times, PathFactor, IdLess;
    forall g
      ensures g in row.contributionByGroup <==> exists k :: k in period.target.weights && Belongs(groups, k, g)
      ensures g in row.contributionByGroup ==> row.contributionByGroup[g] == MapSum(GroupReturns(period, groups, g))
    {
      assert g in row.contributionByGroup <==> exists k :: k in PathReturns(period) && GroupOf(groups, k) == g;
      SameGroup(period, groups, g);
    }
    SortedIdsAscend(UnmappedSet(period.target.weights.Keys, groups));
  }

  lemma SameGroup(period: RebalancePeriod, groups: map<Id, string>, g: string)
    ensures InGroup(PathReturns(period), groups, g) == GroupReturns(period, groups, g)
    ensures (exists k :: k in PathReturns(period) && GroupOf(groups, k) == g) <==> exists k :: k in period.target.weights && Belongs(groups, k, g)
  {
    hide Times, PathFactor;
    forall k ensures GroupOf(groups, k) == g <==> Belongs(groups, k, g) {
    }
  }

  /** The path the drawdown is taken over opens at the initial NAV, and then has the NAV of every step. */
  lemma NavPathMeans(periods: seq<RebalancePeriod>, initialNav: real, model: CostModel, i: nat, j: nat)
    requires AllValid(periods) && Report(periods, initialNav, model).Success?
    requires i < |periods| && j < |periods[i].steps|
    ensures var ledger := Report(periods, initialNav, model).value;
            && ledger.periods != [] && |ledger.periods| == |periods|
            && |NavPath(ledger)| == 1 + StepsBefore(periods, |periods|)
            && NavPath(ledger)[0] == initialNav
            && 1 + StepsBefore(periods, i) + j < |NavPath(ledger)|
            && var row := ledger.periods[i];
               NavPath(ledger)[1 + StepsBefore(periods, i) + j]
               == row.navStart - row.cost + Times(row.navStart, MapSum(ReturnsTo(periods[i], j + 1)))
  {
    hide Report, RunMeans, AllReconcile, Chained, MapSum, Sum, Times, ReturnsTo, HeldBefore;
    LedgerReconciles(periods, initialNav, model);
    ReportMeans(periods, initialNav, model);
    var ledger := Report(periods, initialNav, model).value;
    OpensAt(ledger.periods, initialNav, ledger.finalNav);
    StepNav(periods, ledger.periods, ledger.steps, model, i, j);
  }

  lemma OpensAt(rows: seq<PeriodRow>, initialNav: real, lastNav: real)
    requires rows != [] && Chained(rows, initialNav, lastNav)
    ensures rows[0].navStart == initialNav
  {
    assert rows[0].navStart == NavBefore(rows, initialNav, 0);
  }

  lemma StepNav(periods: seq<RebalancePeriod>, rows: seq<PeriodRow>, steps: seq<StepRow>, model: CostModel, i: nat, j: nat)
    requires RunMeans(periods, |periods|, rows, steps, model) && i < |periods| && j < |periods[i].steps|
    ensures |rows| == |periods| && |steps| == StepsBefore(periods, |periods|) > StepsBefore(periods, i) + j
    ensures steps[StepsBefore(periods, i) + j].nav
            == rows[i].navStart - rows[i].cost + Times(rows[i].navStart, MapSum(ReturnsTo(periods[i], j + 1)))
  {
    hide RowMeans, Drifted, MapSum, Times, ReturnsTo, AbsValues;
    assert StepRowAt(steps, StepsBefore(periods, i), j, periods[i], i, rows[i].navStart, rows[i].cost);
  }
}

/** Metrics over the ledger: attribution by group, and drawdown. */
module PortfolioMetrics {
  import opened Sums
  import opened Ordering
  import opened Wrappers
  import opened Dictionaries
  import opened Ledger
  import opened LedgerTheorems
  import opened LedgerTerminations

  // ---------------------------------------------------------------- attribution by group

  const UNMAPPED_BUCKET: string := "UNMAPPED"

  datatype GroupContribution = GroupContribution(
    rebalanceDate: int, contributionByGroup: map<string, real>, unmappedIds: seq<Id>, total: real)

  datatype MetricInputError = NoPeriods | MissingStepReturn

  function GroupOf(groups: map<Id, string>, k: Id): string {
    if k in groups then groups[k] else UNMAPPED_BUCKET
  }

  /** Every target name has a return at every step up to its own terminal step. */
  ghost predicate Attributable(period: RebalancePeriod, n: nat)
    requires n <= |period.steps|
  {
    forall j, k :: 0 <= j < n && k in period.target.weights && k !in FrozenBy(period.steps, j) ==>
      k in period.steps[j].stepReturns
  }

  /** The entries of a dictionary that belong to one group. */
  ghost function InGroup(m: map<Id, real>, groups: map<Id, string>, g: string): map<Id, real> {
    map k | k in m && GroupOf(groups, k) == g :: m[k]
  }

  /** Group by group, the contributions are the path returns of that group's names. */
  ghost predicate GroupsAdd(c: map<string, real>, m: map<Id, real>, groups: map<Id, string>) {
    && (forall g :: g in c <==> exists k :: k in m && GroupOf(groups, k) == g)
    && (forall g :: g in c ==> c[g] == MapSum(InGroup(m, groups, g)))
    && MapSum(c) == MapSum(m)
  }

  ghost function UnmappedSet(ids: set<Id>, groups: map<Id, string>): set<Id> {
    set k | k in ids && k !in groups
  }

  /** The target names without a group, in ascending order. */
  ghost function UnmappedIds(ids: set<Id>, groups: map<Id, string>): seq<Id> {
    SortedIds(UnmappedSet(ids, groups))
  }

  function PathFactors(factors: map<Id, real>, done: set<Id>, step: MarkStep): map<Id, real> {
    map k | k in factors :: if k in done then Times(factors[k], Growth(step, k)) else factors[k]
  }

  lemma NextPathFactor(factors: map<Id, real>, done: set<Id>, step: MarkStep, k: Id)
    requires k in factors && k !in done
    ensures k in PathFactors(factors, done, step) && PathFactors(factors, done, step)[k] == factors[k]
    ensures PathFactors(factors, done + {k}, step) == PathFactors(factors, done, step)[k := Times(factors[k], Growth(step, k))]
  {
    hide Times, Growth;
  }

  /** Compounds one step for every name that is not frozen. */
  method CompoundStep(factors: map<Id, real>, frozen: set<Id>, step: MarkStep)
    returns (ok: bool, factors': map<Id, real>)
    ensures ok <==> factors.Keys - frozen <= step.stepReturns.Keys
    ensures ok ==> factors' == PathFactors(factors, factors.Keys - frozen, step)
  {
    hide Times, Growth, IdLeq, IdLess, PathFactors;
    ok, factors' := true, factors;
    var todo := factors.Keys;
    ghost var done := {};
    NoFactors(factors, step);
    while todo != {}
      invariant todo <= factors.Keys
      invariant done == factors.Keys - todo - frozen
      invariant done <= step.stepReturns.Keys
      invariant factors' == PathFactors(factors, done, step)
      decreases |todo|
    {
      var sec := Least(todo);
      todo := todo - {sec};
      if sec in frozen {
        continue;
      }
      if sec !in step.stepReturns {
        return false, factors';
      }
      NextPathFactor(factors, done, step, sec);
      assert Growth(step, sec) == 1.0 + step.stepReturns[sec] by { GrowthOf(step, sec); }
      factors' := factors'[sec := Times(factors'[sec], 1.0 + step.stepReturns[sec])];
      done := done + {sec};
    }
    assert done == factors.Keys - frozen;
  }

  lemma NoFactors(factors: map<Id, real>, step: MarkStep)
    ensures PathFactors(factors, {}, step) == factors
  {
  }

  lemma GrowthOf(step: MarkStep, k: Id)
    requires k in step.stepReturns
    ensures Growth(step, k) == 1.0 + step.stepReturns[k]
  {
  }

  lemma AddToGroup(c: map<string, real>, m: map<Id, real>, groups: map<Id, string>, k: Id, v: real)
    requires k !in m && GroupsAdd(c, m, groups)
    ensures var g := GroupOf(groups, k); GroupsAdd(c[g := At(c, g) + v], m[k := v], groups)
  {
    hide MapSum, GroupOf;
    var g := GroupOf(groups, k);
    var m', c' := m[k := v], c[g := At(c, g) + v];
    MapSumInsert(m, k, v);
    MapSumReplace(c, g, At(c, g) + v);
    GroupNet(c, c', m, groups, k, v);
    forall h ensures h in c' <==> exists j :: j in m' && GroupOf(groups, j) == h {
      if h == g {
        assert k in m';
      } else if h in c {
        var j :| j in m && GroupOf(groups, j) == h;
        assert j in m';
      }
    }
  }

  /** Only the group of the new entry changes. */
  lemma GroupNet(c: map<string, real>, c': map<string, real>, m: map<Id, real>, groups: map<Id, string>, k: Id, v: real)
    requires k !in m && GroupsAdd(c, m, groups)
    requires var g := GroupOf(groups, k); c' == c[g := At(c, g) + v]
    ensures forall h :: h in c' ==> c'[h] == MapSum(InGroup(m[k := v], groups, h))
  {
    hide MapSum, GroupOf;
    var g := GroupOf(groups, k);
    forall h | h in c' ensures c'[h] == MapSum(InGroup(m[k := v], groups, h)) {
      if h == g {
        assert InGroup(m[k := v], groups, g) == InGroup(m, groups, g)[k := v];
        MapSumInsert(InGroup(m, groups, g), k, v);
        if g !in c {
          assert InGroup(m, groups, g) == map[];
          EmptySum();
        }
      } else {
        assert InGroup(m[k := v], groups, h) == InGroup(m, groups, h);
      }
    }
  }

  /** What one attribution row says about its period. */
  ghost predicate IsAttribution(row: GroupContribution, period: RebalancePeriod, groups: map<Id, string>) {
    && row.rebalanceDate == period.rebalanceDate
    && GroupsAdd(row.contributionByGroup, PathReturns(period), groups)
    && row.total == MapSum(PathReturns(period))
    && row.unmappedIds == UnmappedIds(period.target.weights.Keys, groups)
  }

  /** One period's attribution. */
  method AttributePeriod(period: RebalancePeriod, groups: map<Id, string>)
    returns (r: Result<GroupContribution, MetricInputError>)
    ensures r.Success? <==> Attributable(period, |period.steps|)
    ensures r.Failure? ==> r.error == MissingStepReturn
    ensures r.Success? ==> IsAttribution(r.value, period, groups)
  {
    hide GroupsAdd, Attributable, FactorsAt, MapSum, PathReturns, UnmappedIds;
    var ok, factors := CompoundPeriod(period);
    if !ok {
      return Failure(MissingStepReturn);
    }
    var contributions, unmapped := GroupContributions(period, factors, groups);
    var total := SumGroups(contributions);
    GroupTotal(contributions, PathReturns(period), groups);
    r := Success(GroupContribution(period.rebalanceDate, contributions, unmapped, total));
  }

  /** The factors of the target names after the first n steps. */
  ghost predicate FactorsAt(factors: map<Id, real>, period: RebalancePeriod, n: nat)
    requires n <= |period.steps|
  {
    && factors.Keys == period.target.weights.Keys
    && forall k :: k in factors ==> factors[k] == PathFactor(period.steps, n, k)
  }

  lemma FactorsNext(factors: map<Id, real>, period: RebalancePeriod, n: nat)
    requires n < |period.steps| && FactorsAt(factors, period, n)
    ensures FactorsAt(PathFactors(factors, factors.Keys - FrozenBy(period.steps, n), period.steps[n]), period, n + 1)
  {
    hide Times, Growth;
  }

  lemma AttributableNext(period: RebalancePeriod, n: nat)
    requires n < |period.steps| && Attributable(period, n)
    ensures Attributable(period, n + 1)
       <==> period.target.weights.Keys - FrozenBy(period.steps, n) <= period.steps[n].stepReturns.Keys
  {
  }

  lemma AttributableFalls(period: RebalancePeriod, n: nat)
    requires n <= |period.steps| && !Attributable(period, n)
    ensures !Attributable(period, |period.steps|)
  {
  }

  method CompoundPeriod(period: RebalancePeriod) returns (ok: bool, factors: map<Id, real>)
    ensures ok <==> Attributable(period, |period.steps|)
    ensures ok ==> FactorsAt(factors, period, |period.steps|)
  {
    hide Times, Growth, Attributable, PathFactors;
    ok, factors := true, map k | k in period.target.weights :: 1.0;
    var frozen: set<Id> := {};
    NoStepsYet(period);
    for i := 0 to |period.steps|
      invariant Attributable(period, i)
      invariant frozen == FrozenBy(period.steps, i)
      invariant FactorsAt(factors, period, i)
    {
      var step := period.steps[i];
      FactorsNext(factors, period, i);
      AttributableNext(period, i);
      var fine, factors' := CompoundStep(factors, frozen, step);
      if !fine {
        AttributableFalls(period, i + 1);
        return false, factors;
      }
      factors := factors';
      frozen := frozen + step.terminated;
    }
  }

  lemma NoStepsYet(period: RebalancePeriod)
    ensures Attributable(period, 0)
  {
  }

  lemma GroupTotal(c: map<string, real>, m: map<Id, real>, groups: map<Id, string>)
    requires GroupsAdd(c, m, groups)
    ensures MapSum(c) == MapSum(m)
  {
  }

  method SumGroups(m: map<string, real>) returns (total: real)
    ensures total == MapSum(m)
  {
    total := SumValues(m);
  }

  function Only(m: map<Id, real>, ids: set<Id>): map<Id, real> {
    map k | k in m && k in ids :: m[k]
  }

  lemma OnlyNext(m: map<Id, real>, done: set<Id>, k: Id)
    requires k in m && k !in done
    ensures k !in Only(m, done)
    ensures Only(m, done + {k}) == Only(m, done)[k := m[k]]
  {
  }

  lemma OnlyEnds(m: map<Id, real>)
    ensures Only(m, {}) == map[] && Only(m, m.Keys) == m
  {
  }

  lemma PathReturnOf(period: RebalancePeriod, factors: map<Id, real>, k: Id)
    requires FactorsAt(factors, period, |period.steps|) && k in factors
    ensures k in period.target.weights && k in PathReturns(period)
    ensures PathReturns(period)[k] == Times(period.target.weights[k], factors[k] - 1.0)
  {
    hide Times, PathFactor;
  }

  lemma PathReturnKeys(period: RebalancePeriod)
    ensures PathReturns(period).Keys == period.target.weights.Keys
  {
  }

  method GroupContributions(period: RebalancePeriod, factors: map<Id, real>, groups: map<Id, string>)
    returns (contributions: map<string, real>, unmapped: seq<Id>)
    requires FactorsAt(factors, period, |period.steps|)
    ensures GroupsAdd(contributions, PathReturns(period), groups)
    ensures unmapped == UnmappedIds(period.target.weights.Keys, groups)
  {
    hide Times, GroupsAdd, IdLeq, UnmappedIds, PathReturns, Only;
    var weights := period.target.weights;
    ghost var all := PathReturns(period);
    contributions, unmapped := map[], [];
    NoGroups(groups);
    OnlyEnds(all);
    PathReturnKeys(period);
    var todo := weights.Keys;
    ghost var done: set<Id> := {};
    while todo != {}
      invariant todo !! done && todo + done == weights.Keys
      invariant GroupsAdd(contributions, Only(all, done), groups)
      invariant unmapped + UnmappedIds(todo, groups) == UnmappedIds(weights.Keys, groups)
      decreases |todo|
    {
      var sec := Least(todo);
      var group := GroupOf(groups, sec);
      NextUnmapped(unmapped, todo, groups);
      if sec !in groups {
        unmapped := unmapped + [sec];
      }
      PathReturnOf(period, factors, sec);
      OnlyNext(all, done, sec);
      var contribution := Times(weights[sec], factors[sec] - 1.0);
      AddToGroup(contributions, Only(all, done), groups, sec, contribution);
      contributions := contributions[group := At(contributions, group) + contribution];
      done := done + {sec};
      todo := todo - {sec};
    }
    assert done == weights.Keys;
    NoneUnmapped(groups);
  }

  lemma NoGroups(groups: map<Id, string>)
    ensures GroupsAdd(map[], map[], groups)
  {
  }

  lemma NoneUnmapped(groups: map<Id, string>)
    ensures UnmappedIds({}, groups) == []
  {
  }

  lemma LeastOfPart(part: set<Id>, whole: set<Id>)
    requires part <= whole && whole != {} && Least(whole) in part
    ensures Least(part) == Least(whole)
  {
    IdLessTotal(Least(part), Least(whole));
  }

  lemma UnmappedHead(todo: set<Id>, groups: map<Id, string>)
    requires todo != {}
    ensures var k := Least(todo);
            UnmappedIds(todo, groups) == (if k in groups then [] else [k]) + UnmappedIds(todo - {k}, groups)
  {
    hide Sorted, IdLeq;
    var k := Least(todo);
    var all := UnmappedSet(todo, groups);
    if k in groups {
      assert UnmappedSet(todo - {k}, groups) == all;
    } else {
      LeastOfPart(all, todo);
      assert all - {k} == UnmappedSet(todo - {k}, groups);
    }
  }

  lemma NextUnmapped(front: seq<Id>, todo: set<Id>, groups: map<Id, string>)
    requires todo != {}
    ensures var k := Least(todo);
            front + UnmappedIds(todo, groups)
              == (if k in groups then front else front + [k]) + UnmappedIds(todo - {k}, groups)
  {
    hide UnmappedIds, IdLeq;
    UnmappedHead(todo, groups);
  }

  /** Attribution of a whole schedule: one row per period, refused at the first missing return. */
  method PerformanceByGroup(periods: seq<RebalancePeriod>, groups: map<Id, string>)
    returns (r: Result<seq<GroupContribution>, MetricInputError>)
    ensures periods == [] ==> r == Failure(NoPeriods)
    ensures periods != [] && r.Failure? ==> r.error == MissingStepReturn
    ensures periods != [] ==>
              (r.Success? <==> forall i :: 0 <= i < |periods| ==> Attributable(periods[i], |periods[i].steps|))
    ensures r.Success? ==> |r.value| == |periods|
    ensures r.Success? ==> forall i :: 0 <= i < |periods| ==> IsAttribution(r.value[i], periods[i], groups)
  {
    hide IsAttribution, Attributable;
    if periods == [] {
      return Failure(NoPeriods);
    }
    var rows := [];
    for i := 0 to |periods|
      invariant |rows| == i
      invariant forall j :: 0 <= j < i ==> Attributable(periods[j], |periods[j].steps|)
      invariant forall j :: 0 <= j < i ==> IsAttribution(rows[j], periods[j], groups)
    {
      var row := AttributePeriod(periods[i], groups);
      if row.Failure? {
        return Failure(row.error);
      }
      rows := rows + [row.value];
    }
    r := Success(rows);
  }

  // ---------------------------------------------------------------- attribution against the ledger

  /** The group contributions of a period add up to the ledger's gross profit over its opening NAV. */
  lemma AttributionAgrees(
      periods: seq<RebalancePeriod>, initialNav: real, model: CostModel, groups: map<Id, string>,
      i: nat, row: GroupContribution)
    requires AllValid(periods) && i < |periods|
    requires Report(periods, initialNav, model).Success?
    requires IsAttribution(row, periods[i], groups)
    ensures var ledger := Report(periods, initialNav, model).value;
            && |ledger.periods| == |periods|
            && ledger.periods[i].navStart > 0.0
            && ledger.periods[i].grossPnl == Times(ledger.periods[i].navStart, row.total)
            && row.total == MapSum(row.contributionByGroup)
  {
    hide MapSum, Times, Report, PathReturns;
    LedgerReconciles(periods, initialNav, model);
    assert RowReconciles(Report(periods, initialNav, model).value.periods[i], periods[i]);
  }

  /** Where attribution goes through, no held position ever lacks a return in the ledger. */
  lemma AttributableNeverMissing(run: Run, period: RebalancePeriod, n: nat, index: nat, model: CostModel)
    requires ValidPeriod(period) && 0 < n <= |period.steps|
    requires OpenPeriod(run, period, model).Success?
    requires MarkTo(OpenPeriod(run, period, model).value, period.steps, n - 1, index).Success?
    requires Attributable(period, n)
    ensures MarkTo(OpenPeriod(run, period, model).value, period.steps, n, index) != Failure(MissingReturn)
  {
    hide Mark, Request, MapSum, PathsAgree;
    HeldIffFactor(run, period, n - 1, index, model);
    var r := MarkTo(OpenPeriod(run, period, model).value, period.steps, n - 1, index).value;
    assert r.book.positions.Keys <= period.steps[n - 1].stepReturns.Keys;
    MarkHasReturns(r, period.steps[n - 1], index);
  }

  lemma MarkHasReturns(r: Running, step: MarkStep, index: nat)
    requires r.book.positions.Keys <= step.stepReturns.Keys
    ensures Mark(r, step, index) != Failure(MissingReturn)
  {
    hide AfterMark, MapSum, Contributions;
  }

  lemma HeldIffFactor(run: Run, period: RebalancePeriod, n: nat, index: nat, model: CostModel)
    requires ValidPeriod(period) && n <= |period.steps|
    requires OpenPeriod(run, period, model).Success?
    requires MarkTo(OpenPeriod(run, period, model).value, period.steps, n, index).Success?
    ensures var r := MarkTo(OpenPeriod(run, period, model).value, period.steps, n, index).value;
            && r.book.positions.Keys <= period.target.weights.Keys
            && forall k :: k in period.target.weights ==>
                 (k in r.book.positions <==>
                    k !in FrozenBy(period.steps, n) && PathFactor(period.steps, n, k) != 0.0)
  {
    hide PathsAgree, Mark, Request, MapSum, MarkTo, PositionsMatch;
    var weights, nav, cost := period.target.weights, Nav(run.book), model(Request(run.book, period)).cost;
    var start := OpenPeriod(run, period, model).value;
    StartOfPeriod(run, period, model);
    MarkToFactorsMatch(start, period.steps, n, index, weights, nav, cost);
    MarkToAgrees(start, period.steps, n, index, weights, nav, cost);
    Separate(MarkTo(start, period.steps, n, index).value, weights, nav, cost);
    PositionsUnfold(MarkTo(start, period.steps, n, index).value, weights, nav);
  }

  /** Names at zero that have not terminated still have a return in every step. */
  ghost predicate ZeroedHaveReturns(period: RebalancePeriod) {
    forall j, k :: 0 <= j < |period.steps| && k in period.target.weights
                   && k !in FrozenBy(period.steps, j) && PathFactor(period.steps, j, k) == 0.0 ==>
      k in period.steps[j].stepReturns
  }

  /** The one difference: attribution also demands returns for names the ledger has dropped at zero. */
  lemma AttributionRefusesOnlyZeroed(run: Run, period: RebalancePeriod, index: nat, model: CostModel)
    requires ValidPeriod(period)
    requires OpenPeriod(run, period, model).Success?
    requires MarkTo(OpenPeriod(run, period, model).value, period.steps, |period.steps|, index).Success?
    ensures Attributable(period, |period.steps|) <==> ZeroedHaveReturns(period)
  {
    hide MarkTo, Request, OpenPeriod, FrozenBy, PathFactor;
    var start := OpenPeriod(run, period, model).value;
    forall j, k | 0 <= j < |period.steps| && k in period.target.weights
                  && k !in FrozenBy(period.steps, j) && PathFactor(period.steps, j, k) != 0.0
      ensures k in period.steps[j].stepReturns
    {
      MarkToPrefix(start, period.steps, j, |period.steps|, index);
      HeldIffFactor(run, period, j, index, model);
      MarkNeedsReturns(start, period.steps, j, index);
    }
  }

  /** Over a whole schedule the ledger accepts, attribution is refused exactly for a name dropped at zero without a return. */
  lemma AttributionOfRunRefusesOnlyZeroed(periods: seq<RebalancePeriod>, initialNav: real, model: CostModel)
    requires AllValid(periods) && Report(periods, initialNav, model).Success?
    ensures (forall i :: 0 <= i < |periods| ==> Attributable(periods[i], |periods[i].steps|))
       <==> forall i :: 0 <= i < |periods| ==> ZeroedHaveReturns(periods[i])
  {
    hide RunTo, OpenPeriod, MarkTo, Attributable, ZeroedHaveReturns;
    forall i | 0 <= i < |periods|
      ensures Attributable(periods[i], |periods[i].steps|) <==> ZeroedHaveReturns(periods[i])
    {
      RunReached(periods, i, |periods|, initialNav, model);
      AttributionRefusesOnlyZeroed(RunTo(periods, i, initialNav, model).value, periods[i], i, model);
    }
  }

  /** A run that succeeds has opened and marked every one of its periods. */
  lemma {:induction false} RunReached(periods: seq<RebalancePeriod>, i: nat, n: nat, initialNav: real, model: CostModel)
    requires AllValid(periods) && i < n <= |periods| && RunTo(periods, n, initialNav, model).Success?
    ensures RunTo(periods, i, initialNav, model).Success?
    ensures var run := RunTo(periods, i, initialNav, model).value;
            && OpenPeriod(run, periods[i], model).Success?
            && MarkTo(OpenPeriod(run, periods[i], model).value, periods[i].steps, |periods[i].steps|, i).Success?
    decreases n
  {
    hide OpenPeriod, MarkTo, CloseRow, Request;
    if i < n - 1 {
      RunReached(periods, i, n - 1, initialNav, model);
    }
  }

  /** Half the book in one name that loses everything on the first mark and is not quoted on the second. */
  function ZeroedPeriod(): RebalancePeriod {
    RebalancePeriod(0, Portfolio(map["A" := 0.5], 1.0), [MarkStep(1, map["A" := -1.0], {}), MarkStep(2, map[], {})], 0.0)
  }

  lemma SingletonSum(k: Id, v: real)
    ensures MapSum(map[k := v]) == v
  {
    EmptySum();
    MapSumInsert(map[], k, v);
  }

  /** The ledger accepts it at no charge, and attribution refuses it. */
  lemma ZeroedNameRefused(model: CostModel)
    requires forall request :: model(request) == Charges(0.0, 0.0)
    ensures AllValid([ZeroedPeriod()]) && Report([ZeroedPeriod()], 1.0, model).Success?
    ensures !Attributable(ZeroedPeriod(), |ZeroedPeriod().steps|)
  {
    hide ZeroedPeriod, RunPeriod, Report, Attributable;
    var period, run := ZeroedPeriod(), Run(Book(1.0, map[], {}), [], [], []);
    ZeroedNotAttributable(period);
    ZeroedRuns(run, period, model);
    OnePeriodReport(run, period, model);
  }

  lemma ZeroedNotAttributable(period: RebalancePeriod)
    requires period == ZeroedPeriod()
    ensures !Attributable(period, |period.steps|)
  {
    assert "A" !in FrozenBy(period.steps, 1) && "A" !in period.steps[1].stepReturns;
  }

  lemma OnePeriodReport(run: Run, period: RebalancePeriod, model: CostModel)
    requires ValidPeriod(period) && run == Run(Book(1.0, map[], {}), [], [], [])
    requires RunPeriod(run, period, 0, model).Success?
    ensures AllValid([period]) && Report([period], 1.0, model).Success?
  {
    hide RunPeriod;
    assert RunTo([period], 0, 1.0, model) == Success(run);
    assert RunTo([period], 1, 1.0, model) == RunPeriod(run, period, 0, model);
  }

  lemma ZeroedRuns(run: Run, period: RebalancePeriod, model: CostModel)
    requires run == Run(Book(1.0, map[], {}), [], [], []) && period == ZeroedPeriod()
    requires forall request :: model(request) == Charges(0.0, 0.0)
    ensures ValidPeriod(period) && RunPeriod(run, period, 0, model).Success?
  {
    ZeroedValid(period);
    ZeroedOpens(run, period, model);
    hide OpenPeriod, MarkTo, CloseRow, Request, ZeroedPeriod, ValidPeriod, RowReconciles, PathReturns;
    ZeroedMarks(OpenPeriod(run, period, model).value, period);
    PeriodReconciles(run, period, 0, model);
  }

  lemma ZeroedValid(period: RebalancePeriod)
    requires period == ZeroedPeriod()
    ensures ValidPeriod(period)
  {
  }

  lemma ZeroedOpens(run: Run, period: RebalancePeriod, model: CostModel)
    requires run == Run(Book(1.0, map[], {}), [], [], []) && period == ZeroedPeriod()
    requires forall request :: model(request) == Charges(0.0, 0.0)
    ensures OpenPeriod(run, period, model).Success?
    ensures var r := OpenPeriod(run, period, model).value;
            r.book.positions == map["A" := 0.5] && Nav(r.book) == 1.0
  {
    hide MapSum, Request;
    EmptySum();
    var targets := TargetValues(period.target.weights, Nav(run.book));
    assert targets == map["A" := 0.5];
    assert Request(run.book, period).trades == TradeList(map[], targets) by { RequestTrades(run.book, period); }
    SelfFinancing(map[], targets);
  }

  lemma RequestTrades(book: Book, period: RebalancePeriod)
    ensures Request(book, period).trades == TradeList(book.positions, TargetValues(period.target.weights, Nav(book)))
  {
  }

  lemma ZeroedMarks(r: Running, period: RebalancePeriod)
    requires r.book.positions == map["A" := 0.5] && Nav(r.book) == 1.0 && period == ZeroedPeriod()
    ensures MarkTo(r, period.steps, |period.steps|, 0).Success?
  {
    hide MapSum, Nav, Records, RowOf;
    var step := period.steps[0];
    assert Contributions(r.book.positions, step) == map["A" := -0.5];
    SingletonSum("A", -0.5);
    MarkValue(r, step);
    assert Moved(r.book.positions, step) == map["A" := 0.0];
    var s := Mark(r, step, 0).value;
    assert s.book.positions == map[];
    assert MarkTo(r, period.steps, 0, 0) == Success(r);
    assert MarkTo(r, period.steps, 1, 0) == Success(s);
    assert Contributions(s.book.positions, period.steps[1]) == map[];
    EmptySum();
    MarkValue(s, period.steps[1]);
    assert MarkTo(r, period.steps, 2, 0) == Mark(s, period.steps[1], 0);
  }

  lemma {:induction false} MarkToPrefix(r: Running, steps: seq<MarkStep>, n: nat, m: nat, index: nat)
    requires n <= m <= |steps| && MarkTo(r, steps, m, index).Success?
    ensures MarkTo(r, steps, n, index).Success?
    ensures n < m ==> MarkTo(r, steps, n + 1, index).Success?
    decreases m - n
  {
    hide Mark;
    if n < m {
      MarkToPrefix(r, steps, n, m - 1, index);
    }
  }

  lemma MarkNeedsReturns(r: Running, steps: seq<MarkStep>, n: nat, index: nat)
    requires n < |steps| && MarkTo(r, steps, n, index).Success? && MarkTo(r, steps, n + 1, index).Success?
    ensures MarkTo(r, steps, n, index).value.book.positions.Keys <= steps[n].stepReturns.Keys
  {
    hide AfterMark, MapSum, Contributions;
  }

  // ---------------------------------------------------------------- drawdown

  /** The opening NAV followed by the NAV after every mark step. */
  function NavPath(ledger: LedgerReport): (path: seq<real>)
    requires ledger.periods != []
    ensures path != []
  {
    [ledger.periods[0].navStart] + seq(|ledger.steps|, i requires 0 <= i < |ledger.steps| => ledger.steps[i].nav)
  }

  predicate AllPositive(path: seq<real>) {
    forall i :: 0 <= i < |path| ==> path[i] > 0.0
  }

  /** The decline from point i to point j, as a fraction of point i. */
  function Decline(path: seq<real>, i: nat, j: nat): real
    requires i <= j < |path| && AllPositive(path)
  {
    1.0 - path[j] / path[i]
  }

  /** A ledger's NAV path is positive, so no drawdown divides by zero. */
  lemma NavPathPositive(periods: seq<RebalancePeriod>, initialNav: real, model: CostModel)
    requires AllValid(periods)
    requires Report(periods, initialNav, model).Success?
    ensures Report(periods, initialNav, model).value.periods != []
    ensures AllPositive(NavPath(Report(periods, initialNav, model).value))
  {
    hide RunTo, RowReconciles, MapSum, Sum;
    LedgerReconciles(periods, initialNav, model);
    NavsStayPositive(periods, |periods|, initialNav, model);
    var ledger := Report(periods, initialNav, model).value;
    FirstRowOpens(ledger.periods[0], periods[0]);
  }

  lemma FirstRowOpens(row: PeriodRow, period: RebalancePeriod)
    requires RowReconciles(row, period)
    ensures row.navStart > 0.0
  {
  }

  lemma LargerPeak(nav: real, low: real, high: real)
    requires nav > 0.0 && 0.0 < low <= high
    ensures 1.0 - nav / low <= 1.0 - nav / high < 1.0
    ensures 1.0 - low / low == 0.0
  {
    var a, b := nav / low, nav / high;
    assert Times(a, low) == nav == Times(b, high);
    if a < b {
      ProductMonotone(b, low, high);
      ProductStrict(a, b, low);
    }
  }

  lemma ProductMonotone(x: real, y: real, z: real)
    requires x >= 0.0 && y <= z
    ensures Times(x, y) <= Times(x, z)
  {
  }

  lemma ProductStrict(x: real, y: real, z: real)
    requires x < y && z > 0.0
    ensures Times(x, z) < Times(y, z)
  {
    ProductPositive(y - x, z);
    assert Times(y - x, z) == Times(y, z) - Times(x, z);
  }

  /** One pass over the NAV path finds the largest decline between any two points in time order. */
  method MaxDrawdown(ledger: LedgerReport) returns (worst: real)
    requires ledger.periods != [] && AllPositive(NavPath(ledger))
    ensures 0.0 <= worst < 1.0
    ensures forall i, j :: 0 <= i <= j < |NavPath(ledger)| ==> Decline(NavPath(ledger), i, j) <= worst
    ensures exists i, j :: 0 <= i <= j < |NavPath(ledger)| && Decline(NavPath(ledger), i, j) == worst
    ensures forall i, j :: 0 <= i <= j < |NavPath(ledger)| ==> NavPath(ledger)[j] >= Times(1.0 - worst, NavPath(ledger)[i])
    ensures exists i, j :: 0 <= i <= j < |NavPath(ledger)| && NavPath(ledger)[j] == Times(1.0 - worst, NavPath(ledger)[i])
  {
    var path := NavPath(ledger);
    hide NavPath;
    var peak := path[0];
    worst := 0.0;
    ghost var top, from, to := 0, 0, 0;
    LargerPeak(path[0], path[0], path[0]);
    for n := 0 to |path|
      invariant 0 <= top < |path| && peak == path[top] && (n > 0 ==> top < n)
      invariant n == 0 ==> top == 0
      invariant forall i :: 0 <= i < n ==> path[i] <= peak
      invariant 0.0 <= worst < 1.0
      invariant 0 <= from <= to < |path| && Decline(path, from, to) == worst
      invariant forall i, j :: 0 <= i <= j < n ==> Decline(path, i, j) <= worst
    {
      var nav := path[n];
      if nav > peak { top := n; }
      peak := Max(peak, nav);
      var before := worst;
      worst := Max(worst, 1.0 - nav / peak);
      if worst != before { from, to := top, n; }
      forall i | 0 <= i <= n ensures Decline(path, i, n) <= worst {
        LargerPeak(nav, path[i], peak);
      }
      LargerPeak(nav, peak, peak);
    }
    KeptShare(path, worst);
    assert path[to] == Times(1.0 - worst, path[from]);
  }

  /** At every later point at least the share 1 - worst is left of any earlier one, and exactly that at the worst decline. */
  lemma KeptShare(path: seq<real>, worst: real)
    requires AllPositive(path) && forall i, j :: 0 <= i <= j < |path| ==> Decline(path, i, j) <= worst
    ensures forall i, j :: 0 <= i <= j < |path| ==> path[j] >= Times(1.0 - worst, path[i])
    ensures forall i, j :: 0 <= i <= j < |path| && Decline(path, i, j) == worst ==> path[j] == Times(1.0 - worst, path[i])
  {
    hide Times;
    forall i, j | 0 <= i <= j < |path|
      ensures path[j] >= Times(1.0 - worst, path[i])
      ensures Decline(path, i, j) == worst ==> path[j] == Times(1.0 - worst, path[i])
    {
      assert Decline(path, i, j) <= worst;
      ShareLeft(path[i], path[j], worst);
    }
  }

  lemma ShareLeft(high: real, low: real, worst: real)
    requires high > 0.0 && 1.0 - low / high <= worst
    ensures low >= Times(1.0 - worst, high)
    ensures 1.0 - low / high == worst ==> low == Times(1.0 - worst, high)
  {
    var share := low / high;
    assert Times(share, high) == low;
    NonNegative(share - (1.0 - worst), high);
    assert Times(share - (1.0 - worst), high) == Times(share, high) - Times(1.0 - worst, high);
  }
}

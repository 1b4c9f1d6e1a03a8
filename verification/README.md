# A verified model of the LASR research pipeline

LASR ranks securities, learns boosted classifiers over factor ranks, builds long/short books
from the scores, runs those books through a position ledger, and reports on the result. The
arithmetic at its centre is written as self-contained algorithms, each with an invariant that
the documentation states. This project models those algorithms in Dafny over exact numbers and
proves the invariants for every input, every schedule and every number of steps.

Modules follow the program's own files:

| module | what it models |
|---|---|
| Ledger, LedgerTheorems, LedgerTerminations, LedgerExposure, LedgerRefusals, RunAccounting | the position ledger: a state machine over cash, positions, banned names and growth factors; its theorems; what every row reports and why a run is refused, from the inputs; and the nested loops that run it |
| PortfolioMetrics, AttributionMeaning | group attribution and drawdown, recomputed from the ledger's inputs |
| Means, NeweyWest, Ranks, CellRanks, Statistics | deviations from the mean, the long-run variance, the two rank loops, correlations and tail statistics |
| Boosting, BoostingTheorems | the multiplicative-weights loop and the summed predictor; what each round selects and why the loop ends |
| Fractiles, SignalWeighted, PositionCaps | portfolio construction: bins, residualised legs and the cap waterfall |
| Level3 | the checks around the optimiser |
| Level3Feasibility, Level3Caps, Level3Beta, Level3Turnover, Level3Groups | exactly when a problem has a feasible book, and when the pre-solve checks miss that it has none |
| Costs, CostsMeaning | the charge rules and the stack that prices trade lists; what each charge comes to in basis points |
| ScoringPanel, ScoringPanelTheorems, ScoringPanelMeaning | one observation per realised outcome, everything else ledgered |
| DataStage, DataStageTheorems, WaveOrder, IntervalMerge, IntervalMeaning | key-unique ingestion waves, and one row per interval |
| ConfigLoader | recursive merging and inheritance chains |
| Sums, Ordering, Grouping, Dictionaries, Wrappers | sums over lists and dictionaries, orders and stable sorting, grouping by key, results |

## Conventions

- Numbers are exact reals, so every claimed agreement is an identity and no tolerance hides in it.
  `fsum` is the exact sum. A value that Python may find non-finite is an `Option` where the code
  branches on it, and the plain finiteness guards are dropped.
- A square root is never taken: a standard error is given by its radicand, a correlation by its
  numerator and the two sums of squares, a volatility by its square.
- `exp`, the power law, the weak-learner kernel, the selection objective and the ledger's cost hook
  are function parameters. `exp` is assumed positive, to turn sums into products, and to be at
  least 1 from 0 on; the power law to be non-negative on non-negative bases; the kernel to return
  a fit for the column it was given with one prediction per row. The cost hook is unconstrained:
  the ledger itself refuses negative charges.
- Identifiers are strings in lexicographic order, dates are integers (an instant is an integer
  number of microseconds where its day matters), dictionaries are maps, and `sorted` is the stable
  sort of module `Ordering`. A loop over `sorted(dict)` takes the least remaining key. Where a
  result could depend on the order in which a dictionary lists its keys, that order is a parameter.
- Refusals are `Failure` values. A loop of the program is a loop here, proved against a
  specification function; theorems are about that function, or about what the method ensures.
- A branch the arithmetic rules out is kept as a branch that is proved dead: the early return and
  the zeroing branch of the cap waterfall, the mass and simplex refusals of the boosting loop, the
  reconciliation refusal of the ledger, the refusals of a negative charge or cost bucket.

## What the code does and its documentation does not say

- The pre-solve checks are described as exact (src/lasr/portfolio/level3_optimizer.py:395). They are
  sound, but not complete. For each kind of limit there is the exact condition for a feasible book,
  the exact condition for silence on a problem that has none, and such a problem:
  - position and borrow limits, either gross mode: the two sides compete for names and the checks
    look at each side alone (`Level3Feasibility.PlainFeasibleIff`,
    `Level3Feasibility.MissedInfeasibleIff`, `Level3.EqualityChecksIncomplete`);
  - participation limits besides, gross an upper bound: no check reads them in this mode
    (`Level3Caps.CappedFeasibleIff`, `Level3Caps.MissedUnderCapsIff`, `Level3Caps.ParticipationUnchecked`);
  - a beta limit, either mode: no check reads it (`Level3Beta.BetaFeasibleIff`,
    `Level3Beta.BetaFeasibleAtGrossIff`, `Level3Beta.MissedUnderBetaIff`, `Level3Beta.BetaLimitUnchecked`);
  - a turnover limit, either mode: the reported minimum is the least trading except where a short
    position may no longer be held or, with gross as an equality, a side has no name to start from
    (`Level3Turnover.TurnoverFeasibleIff`, `Level3Turnover.MinimumIsAttained`,
    `Level3Turnover.MissedUnderTurnoverIff`, `Level3Turnover.ShortSideTakesOver`);
  - position and group limits, gross an upper bound: a group is taken to carry its limit whatever
    its members can hold (`Level3Groups.GroupFeasibleIff`, `Level3Groups.MissedUnderGroupsIff`,
    `Level3Groups.SmallSectorCannotFill`).
- Slicing a trade is described as leaving its charge unchanged (src/lasr/costs/components.py:213-216).
  That holds for every bucket except the commission, which is charged per row:
  `Costs.SlicedCommission` gives the exact condition and `Costs.SlicesPayTwice` a trade that fails it.
- Attribution is described as mirroring the ledger's check path exactly
  (src/lasr/reporting/portfolio_metrics.py:453-458). Its values do, but it also demands a return
  for a name whose position has fallen to zero, which the ledger no longer asks for:
  `PortfolioMetrics.AttributionOfRunRefusesOnlyZeroed` gives the exact condition over a schedule
  and `PortfolioMetrics.ZeroedNameRefused` a period that fails it.
- Waves are expected to be independent of input order (tests/unit/test_pipeline_stages.py:99-108).
  They are exactly when any two different records that arrive together have different keys and are
  told apart by the table order in every wave they share: `WaveOrder.WavesIgnoreOrderIff`. Swapping
  two of one key always changes the waves (`DataStageTheorems.SwappedTiesChangeWaves`);
  `WaveOrder.TiedPayload` has such two, and `WaveOrder.NullAndItsText` two keys with one text.
- The merge of interval vintages is described for an open row and one superseding closure. A closure
  that is later withdrawn is silently kept. `IntervalMerge.AcceptedMergeIsSoundIff` says for any
  interval exactly when an accepted merge answers every day as its vintages do;
  `IntervalMerge.ReopeningIsForgotten` and `IntervalMerge.OpenAtLastIsSoundIff` are its cases with an
  open last vintage, and `IntervalMerge.ReopenedExample` one that goes wrong.

## Model

| member | source | states |
|---|---|---|
| LedgerTheorems.LedgerReconciles | src/lasr/portfolio/accounting.py:348-552 | no schedule, opening NAV or cost model ever fails to reconcile; in a successful run every row's two return paths agree exactly, each period opens at the previous close, and final NAV is initial NAV plus all net P&L |
| LedgerTheorems.PeriodReconciles | src/lasr/portfolio/accounting.py:374-531 | one period appends exactly one row, whose currency return equals its weighted-factor return, opening at the NAV before and closing at the NAV after |
| LedgerTheorems.MarkAgrees | src/lasr/portfolio/accounting.py:439-489 | the invariant value = weight * opening NAV * factor, and currency P&L = factor-path P&L, survive a mark step with terminations and positions dropped at zero |
| LedgerTheorems.MarkToAgrees | src/lasr/portfolio/accounting.py:436-489 | the same over any number of steps |
| LedgerTheorems.EarnedGrows | src/lasr/portfolio/accounting.py:449-454 | what a step adds to the factor path is what it adds to the currency path |
| LedgerTheorems.SelfFinancing | src/lasr/portfolio/accounting.py:389-402 | the cash a rebalance spends is exactly what the positions gain |
| LedgerTheorems.ClosedValue | src/lasr/portfolio/accounting.py:455-473 | closing terminated positions and dropping zero ones moves value to cash and creates none |
| LedgerTheorems.MarkToFactorsMatch | src/lasr/portfolio/accounting.py:437-472 | the ledger's factors are the compounded growth frozen at each name's terminal step, and a name is held exactly when it has neither terminated nor reached zero |
| LedgerTheorems.NavsTelescope | src/lasr/portfolio/accounting.py:492-495 | NAV moves from period to period by net P&L alone |
| LedgerTheorems.NavsStayPositive | src/lasr/portfolio/accounting.py:473-489 | every NAV recorded at a mark step of a successful run is positive |
| LedgerTheorems.SignsKept | src/lasr/portfolio/accounting.py:390-472 | a position keeps the sign of its target weight for as long as it is held |
| LedgerTerminations.TerminatedOnce | src/lasr/portfolio/accounting.py:381-472 | over any run a security has at most one termination record, dated at the step that first terminates it and carrying weight * opening NAV * frozen factor; it is never held or targeted again; and no terminal event of a held name goes unrecorded |
| LedgerTerminations.PeriodTerminations | src/lasr/portfolio/accounting.py:455-472 | the records a period adds are exactly its held names' first terminal events |
| LedgerExposure.ReportMeans | src/lasr/portfolio/accounting.py:348-552 | in every successful report each row's turnover, exposures and charges, each step's NAV, profit and exposures, and the final positions are what the weights, the step returns and the NAV at each open make them |
| LedgerExposure.RequestAsks | src/lasr/portfolio/accounting.py:393-424 | the cost hook is asked for the trades from held to target: buys plus sells are the two-way total, buys less sells the change in net, one-way is half of two-way, and the short notional half of gross less net |
| LedgerExposure.FirstTrade | src/lasr/portfolio/accounting.py:307-309 | from all cash the one-way total is half the gross book |
| LedgerExposure.CloseMeans | src/lasr/portfolio/accounting.py:511-531 | a period row's exposures are those of the weights, its turnover half the absolute moves over the opening NAV, and its charges the hook's answer |
| LedgerExposure.StepRowMeans | src/lasr/portfolio/accounting.py:468-489 | a step row has the NAV and exposures of the drifted book, and the profit since the step before |
| LedgerRefusals.RefusalMeans | src/lasr/portfolio/accounting.py:336-489 | a refused run is refused for its schedule, or at the first period that cannot be run from what the ones before left: NAV used up, a terminated name targeted, a negative charge, or a held name without a return |
| LedgerRefusals.SuccessMeans | src/lasr/portfolio/accounting.py:336-446 | in a successful run every held name had its return and no target brought a terminated name back |
| LedgerRefusals.BannedIff | src/lasr/portfolio/accounting.py:381-388 | the banned names are exactly those some earlier step terminated, held or not |
| RunAccounting.RunAccounting | src/lasr/portfolio/accounting.py:374-552 | the nested loops return the state machine's report, refusals included |
| RunAccounting.AccountPeriod | src/lasr/portfolio/accounting.py:375-531 | one iteration of the period loop is one step of the state machine |
| RunAccounting.MarkStepRun | src/lasr/portfolio/accounting.py:440-489 | one iteration of the step loop is one mark of the state machine |
| RunAccounting.BuildTrades | src/lasr/portfolio/accounting.py:393-398 | the loop lists exactly the non-zero differences between targets and positions |
| RunAccounting.ApplyReturns | src/lasr/portfolio/accounting.py:440-453 | the loop grows positions and factors by the same returns, totals the P&L, and fails exactly when a held name has no return |
| RunAccounting.CloseTerminated | src/lasr/portfolio/accounting.py:455-467 | the loop moves the terminated positions' whole value to cash, with one record each |
| PortfolioMetrics.AttributionAgrees | src/lasr/reporting/portfolio_metrics.py:463-496 | for any group map, a period's group contributions add up to the ledger's gross P&L over its opening NAV |
| PortfolioMetrics.AttributePeriod | src/lasr/reporting/portfolio_metrics.py:464-495 | the loops sum weight * path return within groups, list the unmapped names, and refuse exactly when an unfrozen name lacks a return |
| PortfolioMetrics.PerformanceByGroup | src/lasr/reporting/portfolio_metrics.py:447-497 | one attribution per period; refused exactly when some period's is |
| AttributionMeaning.GroupsMean | src/lasr/reporting/portfolio_metrics.py:478-495 | each group is credited with the returns of its own names, the names without a group together as UNMAPPED, and these are listed in ascending order |
| AttributionMeaning.NavPathMeans | src/lasr/reporting/portfolio_metrics.py:215-227 | the path the drawdown reads opens at the initial NAV and then has the NAV of every step in order |
| PortfolioMetrics.AttributableNeverMissing | src/lasr/reporting/portfolio_metrics.py:466-476 | where attribution goes through, the ledger never misses a return |
| PortfolioMetrics.AttributionRefusesOnlyZeroed | src/lasr/reporting/portfolio_metrics.py:466-477 | where the ledger goes through, attribution does exactly if names dropped at zero still have returns |
| PortfolioMetrics.AttributionOfRunRefusesOnlyZeroed | src/lasr/reporting/portfolio_metrics.py:447-497 | over a whole schedule the ledger accepts, every period is attributed exactly if no name dropped at zero goes without a later return |
| PortfolioMetrics.ZeroedNameRefused | src/lasr/reporting/portfolio_metrics.py:466-477 | a name that loses everything and then has no return: the ledger accepts the period and attribution refuses it |
| PortfolioMetrics.NavPathPositive | src/lasr/reporting/portfolio_metrics.py:221-222 | the NAV path of a successful run is positive, so no drawdown divides by zero |
| PortfolioMetrics.MaxDrawdown | src/lasr/reporting/portfolio_metrics.py:215-227 | the single pass finds the largest decline between any two points in time order, a fraction in [0, 1): every later NAV keeps at least the remaining share of an earlier one, and some keeps exactly that |
| NeweyWest.NeweyWestVariance | src/lasr/reporting/stats.py:116-139 | for n >= 2 the radicand is non-negative, is zero exactly for a constant series, and times n, n and L + 1 is the sum of squares of all zero-padded windows of length L + 1, L being the smaller of the lag count and n - 1; without lags it is the sum of squared deviations over n squared |
| Means.DeviationsVanish | src/lasr/reporting/stats.py:126-127 | all deviations from the mean are zero exactly for a constant series |
| NeweyWest.LongRunVariance | src/lasr/reporting/stats.py:131-138 | the Bartlett-weighted loop accumulates, up to scale, the sum of squared windows |
| NeweyWest.SumOfSquares | src/lasr/reporting/stats.py:133-138 | the sum of squared windows of length L + 1 is the Bartlett combination of autocovariances |
| NeweyWest.WindowIsSlice | src/lasr/reporting/stats.py:133-138 | a window is the sum of the values it covers, at either end of the series too |
| NeweyWest.WindowTimesSum | src/lasr/reporting/stats.py:135-138 | partial windows against the newest value collect one autocovariance per lag |
| Ranks.Midranks | src/lasr/reporting/stats.py:71-87 | each rank is the number of smaller values plus half of one more than the number of equal ones |
| Ranks.RunRank | src/lasr/reporting/stats.py:79-83 | the average position of a maximal tied run is that midrank |
| Ranks.MidranksSum | src/lasr/reporting/stats.py:71-87 | midranks sum to n(n+1)/2, ties or not |
| Ranks.MidrankPermutes | src/lasr/reporting/stats.py:75-87 | rearranging the values rearranges the midranks |
| Ranks.MidrankMonotone | src/lasr/reporting/stats.py:75-87 | a strictly increasing map leaves every midrank unchanged |
| Ranks.RankNormalize | src/lasr/features/transforms.py:79-115 | each covered id gets its rank over the covered count, under either tie rule; uncovered ids get nothing |
| Ranks.AverageScores | src/lasr/features/transforms.py:102-115 | the averaged-tie loop gives the midrank, or its mirror image, over n |
| Ranks.PositionScores | src/lasr/features/transforms.py:95-100 | the position rule gives one more than the number of ids ranked before, by (value, id) |
| Ranks.MidrankReverses | src/lasr/features/transforms.py:94-95 | ranking highest first turns a midrank r into n + 1 - r |
| Ranks.RankBothWays | src/lasr/features/transforms.py:101-115 | both tie-averaging loops, called on one cross-section, return the same ranks, mirrored when rank 1 is the highest |
| Ranks.ListingIrrelevant | src/lasr/features/transforms.py:86-90 | no score depends on the order in which the dictionary lists its ids |
| CellRanks.RankNormalizeByCell | src/lasr/features/transforms.py:118-145 | exactly the covered ids with a cell are scored, and each cell's scores are those of its own covered members ranked alone |
| CellRanks.CellsAreLocal | src/lasr/features/transforms.py:127-131 | a cell's scores do not depend on any value outside the cell |
| Statistics.CauchySchwarz | src/lasr/reporting/stats.py:99-108 | the numerator squared is at most the product of the sums of squares |
| Statistics.PearsonBounded | src/lasr/reporting/stats.py:90-108 | a correlation is defined exactly when neither series is constant, and lies in [-1, 1] |
| Statistics.PearsonCountsPairs | src/lasr/reporting/stats.py:90-108 | n times each sum of products is the sum over all pairs of observations of the products of their differences |
| Statistics.PearsonOfAffine | src/lasr/reporting/stats.py:90-108 | against an affine image of itself a series correlates at +1 or -1, by the sign of the slope |
| Statistics.Spearman | src/lasr/reporting/stats.py:111-113 | the rank correlation is the correlation of the midranks |
| Statistics.SpearmanMonotone | src/lasr/reporting/stats.py:111-113 | only the order of the scores matters to the rank correlation |
| Statistics.QuantileIsOrderStatistic | src/lasr/reporting/stats.py:142-155 | the quantile is an observation that at least an alpha fraction does not exceed, and fewer lie below |
| Statistics.ShortfallBelowQuantile | src/lasr/reporting/stats.py:158-162 | the shortfall is defined whenever the quantile is, averages at least an alpha fraction of the sample, and is no better than the quantile |
| Statistics.ShortfallIsTailMean | src/lasr/reporting/stats.py:142-162 | quantile and shortfall are defined exactly for an alpha within (0, 1) and a non-empty sample, and the shortfall is the mean of the observations at or below the quantile |
| Boosting.Boost | src/lasr/models/boosting.py:463-603 | after every completed round, also on an early stop, weights are a strictly positive simplex and telescope to (1/n) exp(-margin); every round took the first best candidate, the least score when minimizing and the greatest when maximizing (BoostingTheorems.RoundsTakeTheBest); fewer rounds only on a stop; and a refusal is what the first uncompleted round met |
| Boosting.TelescopeStep | src/lasr/models/boosting.py:575-580 | one reweight-and-renormalise step keeps the telescoping identity |
| Boosting.HistoryGrows | src/lasr/models/boosting.py:548-582 | a completed round keeps everything claimed of the history so far |
| Boosting.TrainingErrorBound | src/lasr/models/boosting.py:497-582 | the fraction of training rows with non-positive margin is at most the product of the normalisers |
| Boosting.WeightsFromPrediction | src/lasr/models/boosting.py:636-644 | what the predictor returns on the training panel fixes every final weight |
| Boosting.PredictBoosted | src/lasr/models/boosting.py:606-644 | the loop returns each row's sum of rounds, and is refused exactly when a round's column is missing |
| Boosting.ScanCandidates | src/lasr/models/boosting.py:498-535 | the scan returns the best candidate, the earliest among ties, unless an earlier column stops the training or scores badly |
| BoostingTheorems.RoundsTakeTheBest | src/lasr/models/boosting.py:502-535 | each round's score is at most that of every usable column the kernel fits under its weights when minimizing, at least when maximizing, and strictly better than every earlier one's |
| BoostingTheorems.StopMeans | src/lasr/models/boosting.py:511-513 | training stops early exactly for a usable column on which the kernel says so, before any that scores badly |
| BoostingTheorems.RefusalMeans | src/lasr/models/boosting.py:522-549 | a round is refused for a score that is not finite, because every column is used up or skipped, or for a best fit that does not predict finite values |
| Boosting.RenormalizeSimplex | src/lasr/models/boosting.py:388-400 | dividing positive weights by their sum gives a strictly positive simplex |
| Level3.RefusalIsSound | src/lasr/portfolio/level3_optimizer.py:394-473 | whenever any conflict is detected, no weight vector satisfies all constraints together |
| Level3.StaticConflicts | src/lasr/portfolio/level3_optimizer.py:394-473 | the branches report exactly the detected conflicts, and a non-empty report proves infeasibility |
| Level3.CapacityConflicts | src/lasr/portfolio/level3_optimizer.py:405-428 | position-cap and borrow conflicts, with the short checks exclusive of one another |
| Level3.TradeConflicts | src/lasr/portfolio/level3_optimizer.py:430-458 | turnover and participation conflicts against the drifted book |
| Level3.GroupsPartition | src/lasr/portfolio/level3_optimizer.py:236-242 | group nets add up to the book's net |
| Level3.EqualityChecksIncomplete | src/lasr/portfolio/level3_optimizer.py:395-428 | a one-name problem with gross 2 and net 0 is infeasible and nothing reports it |
| Level3Feasibility.PlainFeasibleIff | src/lasr/portfolio/level3_optimizer.py:395-428 | in either gross mode and with or without a position cap, some book is feasible exactly when the names each side needs fit beside one another and enough of them can be shorted |
| Level3Feasibility.NamesMakeFeasible | src/lasr/portfolio/level3_optimizer.py:395-428 | where they fit, spreading each side evenly over names of its own is a feasible book |
| Level3Feasibility.FeasibleNeedsNames | src/lasr/portfolio/level3_optimizer.py:395-428 | a feasible book is long and short enough different names |
| Level3Feasibility.MissedInfeasibleIff | src/lasr/portfolio/level3_optimizer.py:395-428 | the checks are silent on an infeasible problem exactly when each side fits alone, short of the tolerance, and the two do not fit together |
| Level3Feasibility.SilentIff | src/lasr/portfolio/level3_optimizer.py:405-428 | no conflict is detected exactly when each side alone fits, short of the tolerance |
| Level3Caps.CappedFeasibleIff | src/lasr/portfolio/level3_optimizer.py:395-458 | with gross an upper bound and position, borrow and participation limits, some book is feasible exactly when every name has a weight it may hold, the net lies between the extremes, and the least gross that reaches it is within the target |
| Level3Caps.RoomNeeded | src/lasr/portfolio/level3_optimizer.py:395-458 | a book within the bounds has at least the gross of the book nearest to zero plus the net still missing from that book |
| Level3Caps.BlendReaches | src/lasr/portfolio/level3_optimizer.py:395-458 | and some book within the bounds has exactly that gross |
| Level3Caps.MissedUnderCapsIff | src/lasr/portfolio/level3_optimizer.py:405-458 | in that mode the checks miss an infeasible problem exactly when position and borrow counts fit and the bounds leave no room |
| Level3Caps.ReachIsTheMost | src/lasr/portfolio/level3_optimizer.py:448-453 | the gross the participation check takes to be reachable is the most that any book within the participation and position limits has, and one has it |
| Level3Caps.ParticipationUnchecked | src/lasr/portfolio/level3_optimizer.py:447-458 | a participation limit of zero that forbids the net target goes unreported |
| Level3Beta.BetaFeasibleIff | src/lasr/portfolio/level3_optimizer.py:395-473 | with gross an upper bound and a beta limit, some book is feasible exactly when the range between the extreme exposures, half of gross plus net in the greatest or least beta against half of gross less net in the least or greatest shortable beta, meets the limit |
| Level3Beta.BetaFeasibleAtGrossIff | src/lasr/portfolio/level3_optimizer.py:395-473 | with gross as an equality, exactly when two long and two short names, none on both sides, straddle the limit |
| Level3Beta.FeasiblePairs | src/lasr/portfolio/level3_optimizer.py:503-605 | a feasible book's exposure lies between those of two pairs of its own names |
| Level3Beta.PairsReach | src/lasr/portfolio/level3_optimizer.py:503-605 | between two such pairs some split of the sides is within the limit |
| Level3Beta.MissedUnderBetaIff | src/lasr/portfolio/level3_optimizer.py:395-473 | in either mode the checks miss an infeasible problem exactly when the borrow check passes and that condition fails |
| Level3Beta.BetaLimitUnchecked | src/lasr/portfolio/level3_optimizer.py:395-473 | in either gross mode a net target that the beta limit forbids goes unreported |
| Level3Turnover.TurnoverFeasibleIff | src/lasr/portfolio/level3_optimizer.py:430-446 | in either gross mode, with forced closes and any borrow availability, some book is feasible exactly when both sides find names and the turnover limit allows the least trading |
| Level3Turnover.NoBookTradesLess | src/lasr/portfolio/level3_optimizer.py:430-446 | every feasible book trades at least that much |
| Level3Turnover.SomeBookTradesLeast | src/lasr/portfolio/level3_optimizer.py:430-446 | and where both sides find names some book that meets the other constraints trades no more |
| Level3Turnover.MinimumIsAttained | src/lasr/portfolio/level3_optimizer.py:430-438 | the minimum the check computes is the least trading where no short position is recalled and, with gross as an equality, each side has a name to start from |
| Level3Turnover.MissedUnderTurnoverIff | src/lasr/portfolio/level3_optimizer.py:419-446 | the checks miss an infeasible problem exactly when their minimum is allowed and the least trading is not, or a side lacks a name |
| Level3Turnover.ShortSideTakesOver | src/lasr/portfolio/level3_optimizer.py:430-446 | two long positions and a target with a short side: the reported minimum is half of what must be traded, and nothing reports the limit between |
| Level3Groups.GroupFeasibleIff | src/lasr/portfolio/level3_optimizer.py:405-473 | with gross an upper bound and position, borrow and group limits, some book is feasible exactly when the groups together can carry the net, each at most its limit and the cap times its usable members |
| Level3Groups.GroupRoomNeeded | src/lasr/portfolio/level3_optimizer.py:405-473 | a feasible book's groups each stay within what they can carry |
| Level3Groups.GroupRoomEnough | src/lasr/portfolio/level3_optimizer.py:405-473 | where they can carry the net, the fullest book scaled down to it is feasible |
| Level3Groups.MissedUnderGroupsIff | src/lasr/portfolio/level3_optimizer.py:405-473 | the checks miss an infeasible problem exactly when sides and group limits fit by count and the groups cannot carry the net |
| Level3Groups.SmallSectorCannotFill | src/lasr/portfolio/level3_optimizer.py:459-473 | a sector with one capped name makes a silent infeasible problem |
| Level3.UpperBoundChecksComplete | src/lasr/portfolio/level3_optimizer.py:405-428 | with gross an upper bound and only position and borrow limits, silence means some book passes the final verification |
| Level3.FinalChecks | src/lasr/portfolio/level3_optimizer.py:503-605 | a book is accepted exactly when it meets every configured constraint within the tolerance |
| Level3.BandWidens | src/lasr/portfolio/level3_optimizer.py:503-605 | a wider tolerance only admits more, so every feasible book passes the final checks |
| Level3.GroupReports | src/lasr/portfolio/level3_optimizer.py:560-572 | the group reports hold exactly when every group's net is within its limit |
| Level3.VolatilityReport | src/lasr/portfolio/level3_optimizer.py:586-594 | the report, by its radicand, holds exactly when the annualized variance is within the square of the target plus the tolerance |
| Level3.VolatilityIsARoot | src/lasr/portfolio/level3_optimizer.py:592-594 | the annualized variance has a square root to report, and that root is within the target plus the tolerance exactly when the constraint is met |
| Level3.VarianceRow | src/lasr/portfolio/level3_optimizer.py:880-890 | the split program's row on the variance is the target volatility |
| Level3.WashMass | src/lasr/portfolio/level3_optimizer.py:926-930 | genuine gross falls short of split gross by twice the offsetting mass |
| Level3.SplitIsSound | src/lasr/portfolio/level3_optimizer.py:745-899 | a solution of the split program is feasible, with gross an equality exactly if it has no offsetting mass |
| Level3.SplitIsComplete | src/lasr/portfolio/level3_optimizer.py:745-899 | every feasible book is a solution of the split program without offsetting mass |
| Level3.AcceptSolution | src/lasr/portfolio/level3_optimizer.py:911-944 | whatever the solver returns, an accepted book meets every constraint; it is refused as wash exactly when a name is long and short at once and genuine gross falls short, and either refusal means a constraint is broken |
| Level3.TinyDropped | src/lasr/portfolio/level3_optimizer.py:939-944 | weights below epsilon become zero and the others stay |
| PositionCaps.ApplyPositionCaps | src/lasr/portfolio/signal_weighted.py:223-261 | terminates within as many passes as there are names; refused exactly when n * cap is below the total; otherwise keeps the total and returns min(cap, level * m) for one level >= 1 |
| PositionCaps.OnePass | src/lasr/portfolio/signal_weighted.py:247-261 | a pass that pins the names above the cap raises the level and keeps the total; the zeroing branch is dead |
| PositionCaps.PinningReleases | src/lasr/portfolio/signal_weighted.py:247-255 | pinning leaves more for the free names than they hold |
| PositionCaps.WaterLevelUnique | src/lasr/portfolio/signal_weighted.py:223-261 | two levels with the same total give the same book |
| SignalWeighted.ResidualsNeutral | src/lasr/portfolio/signal_weighted.py:160-183 | residuals sum to zero and are orthogonal to beta, also when beta does not vary |
| SignalWeighted.WeightingNeutral | src/lasr/portfolio/signal_weighted.py:186-220 | the weighting score sums to zero in every mode and is beta-neutral jointly or per leg |
| SignalWeighted.WeightingMeans | src/lasr/portfolio/signal_weighted.py:186-220 | the weighting score is the deviations from the selection's mean, or the residuals of a regression on the whole selection or on each leg |
| SignalWeighted.OlsIsRegression | src/lasr/portfolio/signal_weighted.py:160-183 | residuals are the scores less one intercept and one multiple of beta, and neutral |
| SignalWeighted.ResidualsAreLeast | src/lasr/portfolio/signal_weighted.py:160-183 | no other intercept and slope leave a smaller sum of squares |
| SignalWeighted.Residualize | src/lasr/portfolio/signal_weighted.py:186-220 | refused exactly when the mode and the exposure vector do not fit, with the error the mode implies |
| SignalWeighted.UncappedBookScales | src/lasr/portfolio/signal_weighted.py:309-316 | without caps the separately scaled legs share one scalar |
| SignalWeighted.LegsMakeBook | src/lasr/portfolio/signal_weighted.py:309-316 | two legs of half the gross make a book of net 0 and gross G with every name within the cap |
| SignalWeighted.LegsOf | src/lasr/portfolio/signal_weighted.py:286-316 | the assembled book is one leg per sign; refused as degenerate exactly for an all-zero score, and for the cap exactly when a side is too small |
| SignalWeighted.SideTooSmallIff | src/lasr/portfolio/signal_weighted.py:236-242 | a side is too small for the cap exactly when no leg of its names holds half the gross within it |
| SignalWeighted.BuildLeg | src/lasr/portfolio/signal_weighted.py:311-315 | a leg sums to half the gross, proportional to its magnitudes or at the cap's water level |
| SignalWeighted.BuildSignalWeightedPortfolio | src/lasr/portfolio/signal_weighted.py:264-328 | the book of the residualised extreme legs, the n / k best names and the n / k worst rounded up, has net 0 and gross G, respects the cap, and without caps has exactly zero beta exposure |
| Fractiles.FractilesEqualCount | src/lasr/portfolio/fractiles.py:32-49 | accepted exactly for 2 <= k <= n; then bins are monotone in (score, id), non-empty, of size floor or ceil of n/k, and independent of input order |
| Fractiles.BinIsInterval | src/lasr/portfolio/fractiles.py:49 | the rule i * k // n puts position i in bin j exactly between two consecutive bin starts |
| Fractiles.LegsSeparate | src/lasr/portfolio/fractiles.py:52-65 | the top and bottom legs are non-empty and disjoint, and every top name outranks every bottom one |
| Fractiles.LegsAreExtremes | src/lasr/portfolio/fractiles.py:52-65 | the top leg is n / k names that each outrank every name left out, the bottom leg n / k rounded up that every name left out outranks, both ascending by id |
| Fractiles.ExtremesUnique | src/lasr/portfolio/fractiles.py:52-65 | which determines the legs |
| Fractiles.OrderIndependent | src/lasr/portfolio/base.py:32-40 | the stable order does not depend on how the dictionary lists its ids |
| Costs.ChargeIsLinear | src/lasr/costs/components.py:133-308 | every charge but the commission is a rate the slices share times the notional; missing inputs refuse only a non-zero trade; the flag says whether the group breaches |
| Costs.PriceIsLinear | src/lasr/costs/model.py:147-188 | the same for a whole stack with its multipliers |
| Costs.PriceTrade | src/lasr/costs/model.py:147-188 | the loop over components, then regional and size multipliers, gives the specified price or its first refusal; the refusals of a negative charge or bucket are dead |
| Costs.ScaleBuckets | src/lasr/costs/model.py:174-178 | each listed bucket is multiplied in place once per mention |
| Costs.GroupGrossNotionals | src/lasr/costs/model.py:127-145 | the loop returns the gross of every traded (security, date), refused exactly when a group's volumes disagree |
| Costs.PriceTrades | src/lasr/costs/model.py:190-202 | every row is priced off its group; refused exactly when the grouping or some row is, for the first such row's reason |
| Costs.SlicingInvariant | src/lasr/costs/model.py:127-202 | replacing a trade by slices with the same total absolute notional leaves every group's total in every bucket but the commission unchanged |
| Costs.SlicesFlagTogether | src/lasr/costs/components.py:269-308 | every non-zero slice carries the breach flag exactly if the whole trade would |
| Costs.SlicingKeepsRefusals | src/lasr/costs/model.py:190-202 | whether a trade list prices at all does not depend on slicing |
| Costs.SlicedCommission | src/lasr/costs/components.py:133-142 | the commission total survives slicing exactly when it is free or the number of non-zero rows is unchanged |
| Costs.SlicesPayTwice | src/lasr/costs/components.py:133-142 | under a fixed commission a trade of 2 and its two slices of 1 pay different totals |
| Costs.CostsNonNegative | src/lasr/costs/model.py:79-86 | no charge and no bucket is ever negative, before or after the multipliers |
| CostsMeaning.ComponentCosts | src/lasr/costs/components.py:133-308 | each charge is its configured basis points, ten-thousandths, of the notional: the crossed spread, the regional or general rate, the coefficient times the power of participation, or the penalty on the group's excess by share |
| CostsMeaning.GroupPaysOnce | src/lasr/costs/components.py:296-308 | the rows of a group together pay the penalty on its excess once |
| CostsMeaning.PriceCollects | src/lasr/costs/model.py:147-188 | every bucket is what its rule charges, times the region's multiplier, times the size power once for every mention |
| CostsMeaning.PriceRefused | src/lasr/costs/model.py:147-188 | a price is refused exactly for assets the size hook lacks, or for a non-zero trade some rule has no spread or volume for |
| CostsMeaning.PriceFlagged | src/lasr/costs/components.py:296-308 | a price is flagged exactly when it trades and its group exceeds some participation cap |
| CostsMeaning.RowsPricedByDay | src/lasr/costs/model.py:127-202 | a row is priced off its security's gross notional of the day when a volume rule is configured, else off its own |
| ScoringPanel.BuildScoringPanel | src/lasr/reporting/panel.py:146-296 | the first failing check is the refusal; otherwise the panel keeps exactly the survivors and ledgers every other prediction with its reason |
| ScoringPanel.DedupLatestFit | src/lasr/reporting/panel.py:138-143 | the winner is the unique maximum by (fit time, fold), and the rest are all the others |
| ScoringPanel.CheckDuplicates | src/lasr/reporting/panel.py:212-237 | refused exactly when a fold repeats an outcome, or under the strict policy when any outcome repeats |
| ScoringPanelTheorems.OutcomesScoredOnce | src/lasr/reporting/panel.py:174-269 | no (security, target end) and no (security, date) is scored twice, and every scored window has realised |
| ScoringPanelTheorems.EveryPredictionAccounted | src/lasr/reporting/panel.py:189-287 | observations and ledger lines together are as many as the predictions |
| ScoringPanelTheorems.FateOfPrediction | src/lasr/reporting/panel.py:189-264 | a survivor is shown on its date, a superseded or incomplete prediction is ledgered as such |
| ScoringPanelTheorems.PanelIsUnique | src/lasr/reporting/panel.py:207-287 | the panel is determined by the predictions, in whatever order they come |
| ScoringPanelTheorems.RefusalIgnoresOrder | src/lasr/reporting/panel.py:159-237 | so is the refusal |
| ScoringPanelMeaning.ObservationMeans | src/lasr/reporting/panel.py:242-269 | every observation has the fields of one realised prediction of its date, and no prediction of its outcome was fitted later, or at the same time in a later fold |
| ScoringPanelMeaning.OutcomeShown | src/lasr/reporting/panel.py:242-269 | every realised outcome that was predicted is shown |
| ScoringPanelMeaning.ExclusionMeans | src/lasr/reporting/panel.py:189-253 | every ledger line is a prediction whose window has not realised, or than which another of its outcome was fitted later |
| ScoringPanelMeaning.LedgerAscends | src/lasr/reporting/panel.py:270 | ledger lines ascend by date, security, reason and fold |
| ScoringPanelMeaning.RefusalMeans | src/lasr/reporting/panel.py:159-237 | which refusal is met: mixed horizons, then mixed windows of one date, then an outcome repeated within a fold, then any repeated outcome under the strict policy |
| DataStage.VintageWaves | src/lasr/pipeline/data_stage.py:92-124 | the loop builds as many waves as the most repeated key has records, wave i holding the i-th record of every key in order of arrival, in table order |
| DataStage.WaveOfKey | src/lasr/pipeline/data_stage.py:114-121 | of each key a wave holds the i-th record if there is one, and nothing else |
| DataStageTheorems.WavesAreKeyUnique | src/lasr/pipeline/data_stage.py:97-105 | no stored wave holds a key twice |
| DataStageTheorems.WaveKeys | src/lasr/pipeline/data_stage.py:116-121 | a key is in wave i exactly when more than i records carry it, so every key of a wave is in the one before |
| DataStageTheorems.WaveCount | src/lasr/pipeline/data_stage.py:119-120 | the number of waves is the largest key multiplicity of the payload |
| DataStageTheorems.WavesReplayHistory | src/lasr/pipeline/data_stage.py:97-105 | ingesting the waves in turn replays every key's history in order of arrival |
| DataStageTheorems.WavesPartitionRecords | src/lasr/pipeline/data_stage.py:114-124 | the waves partition the payload as a multiset |
| DataStageTheorems.EarlierWaveKnownFirst | src/lasr/pipeline/data_stage.py:107-121 | of one key's records, the one in the earlier wave has no later stamp, and was known no later where the text of instants orders them as time does |
| DataStageTheorems.WavesInTableOrder | src/lasr/pipeline/data_stage.py:122-123 | every wave is in the table's sort order |
| WaveOrder.WavesIgnoreOrderIff | src/lasr/pipeline/data_stage.py:107-124 | every rearrangement of a payload gives the same waves exactly when any two different records of one arrival text have different keys and, in a wave they share, different table texts |
| WaveOrder.TellingKeysIff | src/lasr/pipeline/data_stage.py:107-124 | where different keys have different texts, that is when no two different records share their knowledge time and key |
| WaveOrder.SharedTieMatters | src/lasr/pipeline/data_stage.py:107-124 | two different records that arrive together and tie in the table of one wave stand in it in the payload's order |
| WaveOrder.NullAndItsText | src/lasr/pipeline/data_stage.py:107-121 | a null key and the text it is shown as make waves that depend on their order |
| Ordering.SortRefines | src/lasr/pipeline/data_stage.py:115-123 | sorting a list already in one order by another gives the second order refined by the first |
| DataStageTheorems.WavesIgnoreOrder | src/lasr/pipeline/data_stage.py:107-124 | two payloads with the same records, whose arrivals differ, have the same waves |
| DataStageTheorems.SwappedTiesChangeWaves | src/lasr/pipeline/data_stage.py:107-121 | swapping two different records of one key and stamp always changes the waves |
| DataStageTheorems.TiedArrivalsFollowThePayload | src/lasr/pipeline/data_stage.py:107-121 | the records of one key and stamp are replayed in the payload's order |
| WaveOrder.TiedPayload | src/lasr/pipeline/data_stage.py:107-121 | two rows of one key, neither with a knowledge time, make waves that depend on their order |
| Grouping.SortIsStable | src/lasr/pipeline/data_stage.py:115 | sorting keeps the order of records that tie |
| IntervalMerge.MergeIntervalVintages | src/lasr/pipeline/data_stage.py:134-181 | one merged row per interval in key order, or the refusal of the first interval that cannot be merged |
| IntervalMeaning.MergeMeans | src/lasr/pipeline/data_stage.py:156-180 | an interval is refused for a record without a knowledge time, or for a last end that is not a day or is published from the second midnight after it on; otherwise the earliest record is returned with the end of the latest, ties in the payload's order |
| IntervalMerge.MergeAddsNoLookAhead | src/lasr/pipeline/data_stage.py:142-153 | an accepted merge answers containment, for every day, as the latest vintage known by the end of that day |
| IntervalMerge.CollapseIsSoundIff | src/lasr/pipeline/data_stage.py:162-178 | collapsing changes no answer exactly when the closure is published by the latest of the day after the end, the first publication and the start |
| IntervalMerge.SlackIsTight | src/lasr/pipeline/data_stage.py:171-177 | where the interval starts and is first known by the day after its end, the code refuses exactly the merges that would change an answer |
| IntervalMerge.MergedPayloadAddsNoLookAhead | src/lasr/pipeline/data_stage.py:134-181 | every row of an accepted payload answers as the vintages of its interval do |
| IntervalMerge.AnswersForDay | src/lasr/core/time_semantics.py:105-109 | what the collapsed row and the vintages each answer for a day |
| IntervalMerge.CollapseChangesNothingIff | src/lasr/pipeline/data_stage.py:134-181 | for any interval, collapsing changes no answer exactly when every superseded vintage is harmless while it is the latest known and no closure is withdrawn |
| IntervalMerge.AcceptedMergeIsSoundIff | src/lasr/pipeline/data_stage.py:134-181 | the same for what the code accepts |
| IntervalMerge.MergedPayloadIsSoundIff | src/lasr/pipeline/data_stage.py:134-181 | every row of an accepted payload answers as its interval's vintages exactly when the collapse of every interval is harmless |
| IntervalMerge.OpenAtLastIsSoundIff | src/lasr/pipeline/data_stage.py:162-180 | with an open last vintage the merge is right exactly when the first is open too and every closure between is superseded before it takes effect |
| IntervalMerge.ReopeningIsForgotten | src/lasr/pipeline/data_stage.py:162-180 | whenever an interval is closed at first and open at last, the merge is accepted and changes some answer |
| IntervalMerge.ReopenedExample | src/lasr/pipeline/data_stage.py:162-180 | an interval closed on day 5 and reopened a microsecond later is merged into a row that ends on day 5 |
| ConfigLoader.DeepMerge | src/lasr/config/loader.py:59-74 | the loop over the delta computes the recursive merge |
| ConfigLoader.MergeLeaves | src/lasr/config/loader.py:59-66 | leaf by leaf, the delta wins wherever it speaks and the base is kept wherever it does not |
| ConfigLoader.MergeIdempotent | src/lasr/config/loader.py:59-74 | merging the same delta again changes nothing, at any depth |
| ConfigLoader.MergeAssociativeIff | src/lasr/config/loader.py:68-73 | merging is associative exactly where no key of the first mapping resurfaces through a leaf of the second |
| ConfigLoader.MergeIsNotAssociative | src/lasr/config/loader.py:68-73 | a scalar between two mappings breaks associativity |
| ConfigLoader.ResolveOutcome | src/lasr/config/loader.py:77-101 | resolution ends for every parent map: at the ancestor-to-child fold up a chain of distinct ancestors, or at the first repeated, missing or malformed parent |
| ConfigLoader.ResolveAlong | src/lasr/config/loader.py:95-101 | along a chain, resolving is resolving its top and merging each descendant over it in turn |
| ConfigLoader.CyclesAreRefused | src/lasr/config/loader.py:90-91 | every chain that comes back to one of its ids is refused as a cycle |
| ConfigLoader.OnlyCyclesAreRefusedAsCycles | src/lasr/config/loader.py:90-91 | and only such a chain is |
| ConfigLoader.LoadVersionSpec | src/lasr/config/loader.py:121-145 | the parents the loop gathers are enough: resolving them meets no gap and no cycle, and gives what resolving against the whole directory would |
| ConfigLoader.ChildWins | src/lasr/config/loader.py:97-101 | whatever a configuration sets itself, at any depth, is what its resolved form has |

## Left out

- Rounding, tolerances on agreements, and non-finite guards: numbers are exact reals, so the ledger's reconciliation tolerance is zero and its refusal is proved dead.
- The optimiser itself, its objective, gradient and starting point, the estimation of the covariance matrix and of betas, and the positive-definiteness check: the model covers the constraint rows, the pre-solve checks and what is done with whatever the solver returns, for any covariance that gives no book a negative variance.
- Level3.UpperBoundChecksComplete: stated for position and borrow limits only, because with participation, beta, turnover or group limits the checks are not complete, as the theorems of Level3Caps, Level3Beta, Level3Turnover and Level3Groups show.
- A condition for feasibility under a volatility target, which no check reads, under several of the participation, beta, turnover and group limits at once, under beta or turnover limits with a position cap, or under participation or group limits with gross as an equality: those ask for a solver or a search over which names to be long and short, and only soundness of the checks is proved there.
- Borrow accrual, its warnings and banner, cost presets and aggregation over periods: single-branch arithmetic.
- A cost hook that keeps state between periods: the hook is a function of the period's request.
- The boosting configuration's other literals (early stopping, initial weights, composition), the weight-trace hash and the random generator: fixed values that no modelled branch depends on.
- `zscore`, winsorisation, the simple equal-weight book, exposure and turnover summaries, effect decomposition: one-step arithmetic.
- The order in which the panel settles outcomes and reports which duplicate it met first: `ScoringPanelTheorems.PanelIsUnique` and `ScoringPanelTheorems.RefusalIgnoresOrder` show that nothing modelled depends on it.
- Reading YAML, Parquet and JSON, schema validation, guards and hashing: files are a map from ids to mappings, and a missing file is an unreadable one.
- The point-in-time store, the canonical builders, forward returns, kernels and ensembles: their behaviour enters only through the parameters above.
- The panel's configuration hash and policy label, and date arithmetic beyond Python's largest date.
- Logging and report rendering.

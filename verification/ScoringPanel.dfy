/** The scoring panel: one observation per realised outcome, everything else on the exclusion ledger. */
module ScoringPanel {
  import opened Grouping
  import opened Ordering
  import opened Wrappers

  datatype Prediction = Prediction(
    foldId: Id, securityId: Id, score: real, asOf: int, targetRaw: real, horizonSteps: nat,
    modelFitTime: int, targetStart: int, targetEnd: int)

  datatype Reason = DuplicateSuperseded | IncompleteTargetWindow

  datatype Exclusion = Exclusion(foldId: Id, securityId: Id, asOf: int, reason: Reason)

  datatype Observation = Observation(
    securityId: Id, asOf: int, score: real, realizedReturn: real, foldId: Id, modelFitTime: int, targetEnd: int)

  datatype Policy = Refuse | LatestFit

  datatype Panel = Panel(
    horizonSteps: nat, dataEnd: int, dates: seq<int>, observations: map<int, seq<Observation>>, excluded: seq<Exclusion>)

  datatype PanelError = EmptySet | MixedHorizons | MixedWindows | DuplicateWithinFold | DuplicateOutcome

  // ---------------------------------------------------------------- vocabulary

  /** Outcome identity: the security and the end of its target window. */
  type Key = (Id, int)

  function KeyOf(p: Prediction): Key {
    (p.securityId, p.targetEnd)
  }

  predicate Complete(p: Prediction, dataEnd: int) {
    p.targetEnd <= dataEnd
  }

  predicate FitLeq(q: Prediction, p: Prediction) {
    q.modelFitTime < p.modelFitTime || (q.modelFitTime == p.modelFitTime && IdLeq(q.foldId, p.foldId))
  }

  /** The one prediction of an outcome the panel keeps: complete, and latest by (fit time, fold). */
  ghost predicate Survives(p: Prediction, preds: seq<Prediction>, dataEnd: int) {
    && Complete(p, dataEnd)
    && forall q :: q in preds && Complete(q, dataEnd) && KeyOf(q) == KeyOf(p) ==> FitLeq(q, p)
  }

  ghost predicate OneHorizon(preds: seq<Prediction>) {
    forall p, q :: p in preds && q in preds ==> p.horizonSteps == q.horizonSteps
  }

  function Window(p: Prediction): (int, int) {
    (p.targetStart, p.targetEnd)
  }

  /** All predictions of one date share one target window. */
  ghost predicate OneWindowPerDate(preds: seq<Prediction>) {
    forall p, q :: p in preds && q in preds && p.asOf == q.asOf ==> Window(p) == Window(q)
  }

  function CompleteBy(dataEnd: int): Prediction -> bool {
    p => Complete(p, dataEnd)
  }

  function CompleteOnes(preds: seq<Prediction>, dataEnd: int): seq<Prediction> {
    Having(preds, CompleteBy(dataEnd), true)
  }

  function IncompleteOnes(preds: seq<Prediction>, dataEnd: int): seq<Prediction> {
    Having(preds, CompleteBy(dataEnd), false)
  }

  function WithKey(ps: seq<Prediction>, k: Key): seq<Prediction> {
    Having(ps, KeyOf, k)
  }

  predicate DistinctFolds(group: seq<Prediction>) {
    forall i, j :: 0 <= i < j < |group| ==> group[i].foldId != group[j].foldId
  }

  /** No fold predicts one outcome twice. */
  ghost predicate FoldsDiffer(complete: seq<Prediction>) {
    forall k :: DistinctFolds(WithKey(complete, k))
  }

  /** No outcome is predicted twice at all. */
  ghost predicate OutcomesDiffer(complete: seq<Prediction>) {
    forall k :: |WithKey(complete, k)| <= 1
  }

  /** Why a prediction set is refused, in the order the checks are made. */
  ghost function Refusal(preds: seq<Prediction>, dataEnd: int, policy: Policy): Option<PanelError> {
    if preds == [] then Some(EmptySet)
    else if !OneHorizon(preds) then Some(MixedHorizons)
    else if !OneWindowPerDate(preds) then Some(MixedWindows)
    else if !FoldsDiffer(CompleteOnes(preds, dataEnd)) then Some(DuplicateWithinFold)
    else if policy == Refuse && !OutcomesDiffer(CompleteOnes(preds, dataEnd)) then Some(DuplicateOutcome)
    else None
  }

  function ObservationOf(p: Prediction): Observation {
    Observation(p.securityId, p.asOf, p.score, p.targetRaw, p.foldId, p.modelFitTime, p.targetEnd)
  }

  function ExclusionOf(p: Prediction, reason: Reason): Exclusion {
    Exclusion(p.foldId, p.securityId, p.asOf, reason)
  }

  function ObservationsOf(ps: seq<Prediction>): seq<Observation> {
    Mapped(ps, ObservationOf)
  }

  function ExclusionsOf(ps: seq<Prediction>, reason: Reason): seq<Exclusion> {
    Mapped(ps, p => ExclusionOf(p, reason))
  }

  function DateOf(p: Prediction): int {
    p.asOf
  }

  function OnDate(ps: seq<Prediction>, d: int): seq<Prediction> {
    Having(ps, DateOf, d)
  }

  predicate ExclusionLeq(a: Exclusion, b: Exclusion) {
    || a.asOf < b.asOf
    || (a.asOf == b.asOf && (|| IdLess(a.securityId, b.securityId)
                             || (a.securityId == b.securityId && ReasonThenFold(a, b))))
  }

  /** The reason names sort duplicates before incomplete windows; the fold id breaks the rest. */
  predicate ReasonThenFold(a: Exclusion, b: Exclusion) {
    (a.reason.DuplicateSuperseded? && b.reason.IncompleteTargetWindow?) || (a.reason == b.reason && IdLeq(a.foldId, b.foldId))
  }

  predicate ObservationLeq(a: Observation, b: Observation) {
    IdLeq(a.securityId, b.securityId)
  }

  predicate StrictlyBySecurity(s: seq<Observation>) {
    forall i, j :: 0 <= i < j < |s| ==> IdLess(s[i].securityId, s[j].securityId)
  }

  /** Every prediction is kept, superseded or incomplete, exactly once, and what was kept is what survives. */
  ghost predicate Partition(
      preds: seq<Prediction>, dataEnd: int, kept: seq<Prediction>, superseded: seq<Prediction>, incomplete: seq<Prediction>)
  {
    && multiset(kept) + multiset(superseded) + multiset(incomplete) == multiset(preds)
    && (forall p :: p in kept ==> Survives(p, preds, dataEnd))
    && (forall p :: p in superseded ==> Complete(p, dataEnd) && !Survives(p, preds, dataEnd))
    && (forall p :: p in incomplete ==> !Complete(p, dataEnd))
  }

  predicate OutcomesOnce(kept: seq<Prediction>) {
    forall i, j :: 0 <= i < j < |kept| ==> KeyOf(kept[i]) != KeyOf(kept[j])
  }

  /** The dates of the kept predictions, and on each date its predictions in the order of their securities. */
  ghost predicate ShowsKept(dates: seq<int>, observations: map<int, seq<Observation>>, kept: seq<Prediction>) {
    && Ascending(dates)
    && (forall d :: d in dates <==> d in observations)
    && (forall d :: d in observations <==> OnDate(kept, d) != [])
    && (forall d :: d in observations ==>
          StrictlyBySecurity(observations[d]) && multiset(observations[d]) == multiset(ObservationsOf(OnDate(kept, d))))
  }

  predicate Ascending(dates: seq<int>) {
    forall i, j :: 0 <= i < j < |dates| ==> dates[i] < dates[j]
  }

  ghost predicate Ledgers(excluded: seq<Exclusion>, superseded: seq<Prediction>, incomplete: seq<Prediction>) {
    && Sorted(excluded, ExclusionLeq)
    && multiset(excluded)
       == multiset(ExclusionsOf(incomplete, IncompleteTargetWindow)) + multiset(ExclusionsOf(superseded, DuplicateSuperseded))
  }

  /** The panel shows the kept predictions and ledgers all the others. */
  ghost predicate Shows(
      panel: Panel, preds: seq<Prediction>, dataEnd: int,
      kept: seq<Prediction>, superseded: seq<Prediction>, incomplete: seq<Prediction>)
  {
    && Partition(preds, dataEnd, kept, superseded, incomplete)
    && OutcomesOnce(kept)
    && panel.dataEnd == dataEnd
    && (forall p :: p in preds ==> panel.horizonSteps == p.horizonSteps)
    && ShowsKept(panel.dates, panel.observations, kept)
    && Ledgers(panel.excluded, superseded, incomplete)
  }

  /** The panel accounts for every prediction, as kept, superseded or incomplete. */
  ghost predicate PanelOf(panel: Panel, preds: seq<Prediction>, dataEnd: int) {
    exists kept, superseded, incomplete :: Shows(panel, preds, dataEnd, kept, superseded, incomplete)
  }

  lemma SplitComplete(preds: seq<Prediction>, dataEnd: int)
    ensures multiset(CompleteOnes(preds, dataEnd)) + multiset(IncompleteOnes(preds, dataEnd)) == multiset(preds)
    ensures forall p :: p in CompleteOnes(preds, dataEnd) <==> p in preds && Complete(p, dataEnd)
    ensures forall p :: p in IncompleteOnes(preds, dataEnd) <==> p in preds && !Complete(p, dataEnd)
  {
    hide Having, Complete;
    HavingMembers(preds, CompleteBy(dataEnd), true);
    HavingMembers(preds, CompleteBy(dataEnd), false);
    forall p ensures (multiset(CompleteOnes(preds, dataEnd)) + multiset(IncompleteOnes(preds, dataEnd)))[p] == multiset(preds)[p] {
      HavingCounts(preds, CompleteBy(dataEnd), true, p);
      HavingCounts(preds, CompleteBy(dataEnd), false, p);
    }
  }

  // ---------------------------------------------------------------- the checks

  lemma SmallSet<T>(s: set<T>)
    ensures |s| <= 1 <==> forall x, y :: x in s && y in s ==> x == y
  {
    if forall x, y :: x in s && y in s ==> x == y {
      if s != {} {
        var x :| x in s;
        assert s == {x};
      }
    }
    if |s| <= 1 {
      forall x, y | x in s && y in s ensures x == y {
        assert |s - {x}| == |s| - 1;
      }
    }
  }

  method HorizonsAgree(preds: seq<Prediction>) returns (ok: bool)
    ensures ok <==> OneHorizon(preds)
  {
    var horizons := set p | p in preds :: p.horizonSteps;
    SmallSet(horizons);
    ok := |horizons| <= 1;
    if ok {
      forall p, q | p in preds && q in preds ensures p.horizonSteps == q.horizonSteps {
        assert p.horizonSteps in horizons && q.horizonSteps in horizons;
      }
    }
  }

  /** The distinct windows seen on a date. */
  ghost predicate WindowsSeen(w: map<int, set<(int, int)>>, seen: seq<Prediction>) {
    && (forall p :: p in seen ==> p.asOf in w && Window(p) in w[p.asOf])
    && (forall d, x :: d in w && x in w[d] ==> exists p :: p in seen && p.asOf == d && Window(p) == x)
  }

  lemma SeeOne(w: map<int, set<(int, int)>>, seen: seq<Prediction>, p: Prediction)
    requires WindowsSeen(w, seen)
    ensures WindowsSeen(w[p.asOf := (if p.asOf in w then w[p.asOf] else {}) + {Window(p)}], seen + [p])
  {
    var w' := w[p.asOf := (if p.asOf in w then w[p.asOf] else {}) + {Window(p)}];
    forall d, x | d in w' && x in w'[d] ensures exists q :: q in seen + [p] && q.asOf == d && Window(q) == x {
      if d == p.asOf && x == Window(p) {
        assert p in seen + [p];
      } else {
        assert d in w && x in w[d];
        var q :| q in seen && q.asOf == d && Window(q) == x;
        assert q in seen + [p];
      }
    }
  }

  method WindowsAgree(preds: seq<Prediction>) returns (ok: bool)
    ensures ok <==> OneWindowPerDate(preds)
  {
    hide WindowsSeen;
    var windows: map<int, set<(int, int)>> := map[];
    assert WindowsSeen(windows, preds[..0]) by { NothingSeen(); }
    for i := 0 to |preds|
      invariant WindowsSeen(windows, preds[..i])
    {
      var p := preds[i];
      SeeOne(windows, preds[..i], p);
      assert preds[..i + 1] == preds[..i] + [p];
      windows := windows[p.asOf := (if p.asOf in windows then windows[p.asOf] else {}) + {Window(p)}];
    }
    assert preds[..|preds|] == preds;
    ok := forall d :: d in windows ==> |windows[d]| <= 1;
    WindowsDecide(windows, preds);
  }

  lemma NothingSeen()
    ensures WindowsSeen(map[], [])
  {
  }

  lemma WindowsDecide(w: map<int, set<(int, int)>>, preds: seq<Prediction>)
    requires WindowsSeen(w, preds)
    ensures (forall d :: d in w ==> |w[d]| <= 1) <==> OneWindowPerDate(preds)
  {
    forall d | d in w ensures |w[d]| <= 1 <==> forall x, y :: x in w[d] && y in w[d] ==> x == y {
      SmallSet(w[d]);
    }
    if OneWindowPerDate(preds) {
      forall d, x, y | d in w && x in w[d] && y in w[d] ensures x == y {
        var p :| p in preds && p.asOf == d && Window(p) == x;
        var q :| q in preds && q.asOf == d && Window(q) == y;
      }
    }
  }

  // ---------------------------------------------------------------- picking the survivor

  ghost predicate LatestOf(group: seq<Prediction>, n: nat, best: nat)
    requires n <= |group|
  {
    best < |group| && forall j :: 0 <= j < n ==> FitLeq(group[j], group[best])
  }

  /** The latest prediction of a group by (fit time, fold), and the rest in order. */
  method DedupLatestFit(group: seq<Prediction>) returns (winner: Prediction, rest: seq<Prediction>)
    requires group != [] && DistinctFolds(group)
    ensures winner in group && forall q :: q in group ==> FitLeq(q, winner)
    ensures multiset(group) == multiset(rest) + multiset{winner}
    ensures forall q :: q in rest ==> !FitLeq(winner, q)
  {
    var best := 0;
    for i := 1 to |group|
      invariant LatestOf(group, i, best)
    {
      StillLatest(group, i, best);
      if !FitLeq(group[i], group[best]) {
        best := i;
      }
    }
    winner := group[best];
    rest := group[..best] + group[best + 1..];
    assert group == group[..best] + [group[best]] + group[best + 1..];
    forall q | q in rest ensures !FitLeq(winner, q) {
      EarlierThanTheWinner(group, best, q);
    }
  }

  lemma StillLatest(group: seq<Prediction>, i: nat, best: nat)
    requires i < |group| && LatestOf(group, i, best)
    ensures LatestOf(group, i + 1, if FitLeq(group[i], group[best]) then best else i)
  {
    hide IdLess;
    IdOrderIsTotal();
    assert IdLeq(group[i].foldId, group[best].foldId) || IdLeq(group[best].foldId, group[i].foldId);
    assert IdLeq(group[i].foldId, group[i].foldId);
    if !FitLeq(group[i], group[best]) {
      assert FitLeq(group[best], group[i]);
      forall j | 0 <= j < i ensures FitLeq(group[j], group[i]) {
        FitTransitive(group[j], group[best], group[i]);
      }
    }
  }

  lemma EarlierThanTheWinner(group: seq<Prediction>, best: nat, q: Prediction)
    requires DistinctFolds(group) && LatestOf(group, |group|, best)
    requires q in group[..best] + group[best + 1..]
    ensures !FitLeq(group[best], q)
  {
    hide FitLeq;
    var rest := group[..best] + group[best + 1..];
    var j :| 0 <= j < |rest| && rest[j] == q;
    var i := if j < best then j else j + 1;
    assert group[i] == q && FitLeq(group[i], group[best]);
    assert group[i].foldId != group[best].foldId;
    if FitLeq(group[best], q) {
      FitAntisymmetric(group[i], group[best]);
      assert false;
    }
  }

  lemma FitTransitive(p: Prediction, q: Prediction, r: Prediction)
    requires FitLeq(p, q) && FitLeq(q, r)
    ensures FitLeq(p, r)
  {
    hide IdLeq;
    IdOrderIsTotal();
    if p.modelFitTime == q.modelFitTime == r.modelFitTime {
      assert IdLeq(p.foldId, q.foldId) && IdLeq(q.foldId, r.foldId);
    }
  }

  lemma FitAntisymmetric(p: Prediction, q: Prediction)
    requires FitLeq(p, q) && FitLeq(q, p)
    ensures p.foldId == q.foldId
  {
    IdLessTotal(p.foldId, q.foldId);
  }

  // ---------------------------------------------------------------- duplicates

  /** set(fold_ids) */
  function Folds(group: seq<Prediction>): set<Id> {
    if group == [] then {} else Folds(group[..|group| - 1]) + {group[|group| - 1].foldId}
  }

  lemma {:induction false} FoldsMembers(group: seq<Prediction>)
    ensures forall f :: f in Folds(group) <==> exists i :: 0 <= i < |group| && group[i].foldId == f
    decreases |group|
  {
    if group != [] {
      var n := |group| - 1;
      var init := group[..n];
      FoldsMembers(init);
      forall f ensures f in Folds(group) <==> exists i :: 0 <= i < |group| && group[i].foldId == f {
        if i :| 0 <= i < |group| && group[i].foldId == f {
          assert i < n ==> init[i].foldId == f;
        }
        if f in Folds(init) {
          var i :| 0 <= i < |init| && init[i].foldId == f;
          assert group[i].foldId == f;
        }
        assert group[n].foldId in Folds(group);
      }
    }
  }

  lemma OneMoreFold(group: seq<Prediction>)
    requires group != []
    ensures DistinctFolds(group)
            <==> DistinctFolds(group[..|group| - 1]) && group[|group| - 1].foldId !in Folds(group[..|group| - 1])
  {
    hide Folds;
    var init := group[..|group| - 1];
    FoldsMembers(init);
    if group[|init|].foldId in Folds(init) {
      var i :| 0 <= i < |init| && init[i].foldId == group[|init|].foldId;
      assert group[i].foldId == group[|init|].foldId;
    } else {
      assert forall i :: 0 <= i < |init| ==> init[i].foldId in Folds(init) && init[i] == group[i];
    }
  }

  lemma {:induction false} FoldsCount(group: seq<Prediction>)
    ensures |Folds(group)| == |group| <==> DistinctFolds(group)
    ensures |Folds(group)| <= |group|
    decreases |group|
  {
    hide DistinctFolds;
    if group == [] {
      NoFolds();
    } else {
      FoldsCount(group[..|group| - 1]);
      OneMoreFold(group);
    }
  }

  lemma NoFolds()
    ensures DistinctFolds([])
  {
  }

  /** Refuses an outcome one fold predicts twice, and under the strict policy any outcome predicted twice. */
  method CheckDuplicates(groups: map<Key, seq<Prediction>>, policy: Policy) returns (refusal: Option<PanelError>)
    ensures refusal == if !(forall k :: k in groups ==> DistinctFolds(groups[k])) then Some(DuplicateWithinFold)
                       else if policy == Refuse && !(forall k :: k in groups ==> |groups[k]| <= 1) then Some(DuplicateOutcome)
                       else None
  {
    hide Folds;
    var duplicates := set k | k in groups && |groups[k]| > 1;
    var todo := duplicates;
    while todo != {}
      invariant todo <= duplicates
      invariant forall k :: k in duplicates - todo ==> DistinctFolds(groups[k])
    {
      var k :| k in todo;
      FoldsCount(groups[k]);
      if |Folds(groups[k])| != |groups[k]| {
        return Some(DuplicateWithinFold);
      }
      todo := todo - {k};
    }
    assert forall k :: k in groups ==> DistinctFolds(groups[k]);
    if duplicates != {} && policy == Refuse {
      var k :| k in duplicates;
      assert |groups[k]| > 1;
      return Some(DuplicateOutcome);
    }
    assert forall k :: k in groups && |groups[k]| > 1 ==> k in duplicates;
    return None;
  }

  // ---------------------------------------------------------------- the panel

  /** The observations so far, by date, each date in the order the outcomes were settled. */
  ghost predicate KeptByDate(byDate: map<int, seq<Observation>>, kept: seq<Prediction>) {
    && (forall d :: d in byDate <==> OnDate(kept, d) != [])
    && (forall d :: d in byDate ==> byDate[d] == ObservationsOf(OnDate(kept, d)))
  }

  lemma KeepOne(byDate: map<int, seq<Observation>>, kept: seq<Prediction>, p: Prediction)
    requires KeptByDate(byDate, kept)
    ensures KeptByDate(byDate[p.asOf := (if p.asOf in byDate then byDate[p.asOf] else []) + [ObservationOf(p)]], kept + [p])
  {
    hide Having;
    forall d ensures OnDate(kept + [p], d) == OnDate(kept, d) + if p.asOf == d then [p] else [] {
      HavingAppend(kept, p, DateOf, d);
    }
    assert ObservationsOf(OnDate(kept, p.asOf) + [p]) == ObservationsOf(OnDate(kept, p.asOf)) + [ObservationOf(p)];
  }

  /** What the method's main loop keeps: the settled outcomes are split, everything else is still to come. */
  ghost predicate Settled(complete: seq<Prediction>, done: set<Key>, kept: seq<Prediction>, superseded: seq<Prediction>) {
    && multiset(kept) + multiset(superseded) == multiset(HavingAny(complete, KeyOf, done))
    && (forall p :: p in kept ==> KeyOf(p) in done && LatestOfKey(p, complete))
    && (forall p :: p in superseded ==> p in complete && !LatestOfKey(p, complete))
    && OutcomesOnce(kept)
  }

  ghost predicate LatestOfKey(p: Prediction, complete: seq<Prediction>) {
    p in complete && forall q :: q in complete && KeyOf(q) == KeyOf(p) ==> FitLeq(q, p)
  }

  lemma SettleOne(
      complete: seq<Prediction>, done: set<Key>, kept: seq<Prediction>, superseded: seq<Prediction>,
      k: Key, winner: Prediction, rest: seq<Prediction>)
    requires Settled(complete, done, kept, superseded) && k !in done
    requires multiset(WithKey(complete, k)) == multiset(rest) + multiset{winner}
    requires winner in WithKey(complete, k) && forall q :: q in WithKey(complete, k) ==> FitLeq(q, winner)
    requires forall q :: q in rest ==> !FitLeq(winner, q)
    ensures Settled(complete, done + {k}, kept + [winner], superseded + rest)
  {
    hide FitLeq, Having, HavingAny;
    HavingMembers(complete, KeyOf, k);
    OneMoreKey(complete, KeyOf, done, k);
    forall q | q in rest ensures q in complete && KeyOf(q) == k && !LatestOfKey(q, complete) {
      assert q in multiset(WithKey(complete, k));
      assert KeyOf(winner) == k && winner in complete;
    }
    assert LatestOfKey(winner, complete);
  }

  lemma NothingSettled(complete: seq<Prediction>)
    ensures Settled(complete, {}, [], [])
  {
    NoKeys(complete, KeyOf);
  }

  /** Once every outcome is settled, the incomplete predictions complete the partition. */
  lemma AllSettled(
      preds: seq<Prediction>, dataEnd: int, done: set<Key>, kept: seq<Prediction>, superseded: seq<Prediction>)
    requires Settled(CompleteOnes(preds, dataEnd), done, kept, superseded)
    requires forall p :: p in CompleteOnes(preds, dataEnd) ==> KeyOf(p) in done
    ensures Partition(preds, dataEnd, kept, superseded, IncompleteOnes(preds, dataEnd))
    ensures OutcomesOnce(kept)
  {
    hide FitLeq, CompleteOnes, IncompleteOnes, HavingAny;
    var complete := CompleteOnes(preds, dataEnd);
    SplitComplete(preds, dataEnd);
    AllKeys(complete, KeyOf, done);
    forall p | p in complete ensures LatestOfKey(p, complete) <==> Survives(p, preds, dataEnd) {
    }
    forall p | p in superseded ensures Complete(p, dataEnd) && !Survives(p, preds, dataEnd) {
      assert p in complete;
    }
  }

  // ---------------------------------------------------------------- arranging the panel

  /** With one window per date, an outcome kept once per key is a security kept once per date. */
  lemma {:induction false} SecuritiesDiffer(kept: seq<Prediction>, d: int)
    requires OutcomesOnce(kept) && OneWindowPerDate(kept)
    ensures forall p :: p in OnDate(kept, d) ==> p in kept && p.asOf == d
    ensures forall i, j :: 0 <= i < j < |OnDate(kept, d)| ==> OnDate(kept, d)[i].securityId != OnDate(kept, d)[j].securityId
    decreases |kept|
  {
    if kept != [] {
      var n := |kept| - 1;
      var init := kept[..n];
      SecuritiesDiffer(init, d);
      forall p | p in OnDate(init, d) && kept[n].asOf == d ensures p.securityId != kept[n].securityId {
        var i :| 0 <= i < |init| && init[i] == p;
        assert kept[i] == p && KeyOf(kept[i]) != KeyOf(kept[n]);
        assert Window(p) == Window(kept[n]);
      }
    }
  }

  lemma ObservationsAreOrdered()
    ensures TotalOrder(ObservationLeq)
  {
    hide IdLeq;
    IdOrderIsTotal();
    forall a, b ensures ObservationLeq(a, b) || ObservationLeq(b, a) {
      assert IdLeq(a.securityId, b.securityId) || IdLeq(b.securityId, a.securityId);
    }
    forall a, b, c | ObservationLeq(a, b) && ObservationLeq(b, c) ensures ObservationLeq(a, c) {
      assert IdLeq(a.securityId, b.securityId) && IdLeq(b.securityId, c.securityId);
    }
  }

  function SecurityOf(o: Observation): Id {
    o.securityId
  }

  lemma SortedDate(kept: seq<Prediction>, d: int)
    requires OutcomesOnce(kept) && OneWindowPerDate(kept)
    ensures StrictlyBySecurity(SortBy(ObservationsOf(OnDate(kept, d)), ObservationLeq))
    ensures multiset(SortBy(ObservationsOf(OnDate(kept, d)), ObservationLeq)) == multiset(ObservationsOf(OnDate(kept, d)))
  {
    hide SortBy, OnDate, IdLess;
    var unsorted := ObservationsOf(OnDate(kept, d));
    var sorted := SortBy(unsorted, ObservationLeq);
    SecuritiesDiffer(kept, d);
    ObservationsAreOrdered();
    SortContents(unsorted, ObservationLeq);
    SortIsSorted(unsorted, ObservationLeq);
    MappedPermutes(unsorted, sorted, SecurityOf);
    DistinctFromMultiset(Mapped(unsorted, SecurityOf), Mapped(sorted, SecurityOf));
    forall i, j | 0 <= i < j < |sorted| ensures IdLess(sorted[i].securityId, sorted[j].securityId) {
      assert ObservationLeq(sorted[i], sorted[j]);
      assert Mapped(sorted, SecurityOf)[i] != Mapped(sorted, SecurityOf)[j];
    }
  }

  predicate DateLeq(a: int, b: int) {
    a <= b
  }

  lemma AscendingSort(dates: seq<int>)
    requires forall i, j :: 0 <= i < j < |dates| ==> dates[i] != dates[j]
    ensures Ascending(SortBy(dates, DateLeq))
    ensures forall d :: d in SortBy(dates, DateLeq) <==> d in dates
  {
    hide SortBy;
    var sorted := SortBy(dates, DateLeq);
    SortContents(dates, DateLeq);
    SortIsSorted(dates, DateLeq);
    DistinctFromMultiset(dates, sorted);
    forall i, j | 0 <= i < j < |sorted| ensures sorted[i] < sorted[j] {
      assert DateLeq(sorted[i], sorted[j]);
    }
  }

  lemma SomeDate(dates: set<int>)
    requires dates != {}
    ensures exists d :: d in dates
  {
    assert (forall d :: d !in dates) ==> dates == {};
  }

  method Arrange(byDate: map<int, seq<Observation>>, ghost kept: seq<Prediction>)
    returns (dates: seq<int>, observations: map<int, seq<Observation>>)
    requires KeptByDate(byDate, kept) && OutcomesOnce(kept) && OneWindowPerDate(kept)
    ensures ShowsKept(dates, observations, kept)
  {
    hide SortBy, StrictlyBySecurity, Ascending, OutcomesOnce, OneWindowPerDate, OnDate;
    dates := [];
    var todo := set d | d in byDate;
    while todo != {}
      invariant forall d :: d in todo ==> d in byDate
      invariant forall d :: d in dates <==> d in byDate && d !in todo
      invariant forall i, j :: 0 <= i < j < |dates| ==> dates[i] != dates[j]
    {
      SomeDate(todo);
      var d :| d in todo;
      assert d !in dates;
      dates := dates + [d];
      todo := todo - {d};
    }
    AscendingSort(dates);
    dates := SortBy(dates, DateLeq);
    observations := map d | d in byDate :: SortBy(byDate[d], ObservationLeq);
    forall d | d in observations
      ensures StrictlyBySecurity(observations[d]) && multiset(observations[d]) == multiset(ObservationsOf(OnDate(kept, d)))
    {
      SortedDate(kept, d);
    }
  }

  lemma ExclusionsAreOrdered()
    ensures TotalOrder(ExclusionLeq) && Antisymmetric(ExclusionLeq)
  {
    hide IdLess;
    forall a, b ensures ExclusionLeq(a, b) || ExclusionLeq(b, a) {
      IdLessTotal(a.securityId, b.securityId);
      IdLessTotal(a.foldId, b.foldId);
    }
    forall a, b | ExclusionLeq(a, b) && ExclusionLeq(b, a) ensures a == b {
      IdLessTotal(a.securityId, b.securityId);
      IdLessTotal(a.foldId, b.foldId);
    }
    forall a, b, c | ExclusionLeq(a, b) && ExclusionLeq(b, c) ensures ExclusionLeq(a, c) {
      ExclusionsChain(a, b, c);
    }
  }

  lemma ExclusionsChain(a: Exclusion, b: Exclusion, c: Exclusion)
    requires ExclusionLeq(a, b) && ExclusionLeq(b, c)
    ensures ExclusionLeq(a, c)
  {
    hide IdLess;
    if IdLess(a.securityId, b.securityId) && IdLess(b.securityId, c.securityId) {
      IdLessTransitive(a.securityId, b.securityId, c.securityId);
    }
    if IdLess(a.foldId, b.foldId) && IdLess(b.foldId, c.foldId) {
      IdLessTransitive(a.foldId, b.foldId, c.foldId);
    }
  }

  lemma LedgerSorted(incomplete: seq<Prediction>, superseded: seq<Prediction>)
    ensures Ledgers(
              SortBy(ExclusionsOf(incomplete, IncompleteTargetWindow) + ExclusionsOf(superseded, DuplicateSuperseded), ExclusionLeq),
              superseded, incomplete)
  {
    hide SortBy, ExclusionLeq;
    var listed := ExclusionsOf(incomplete, IncompleteTargetWindow) + ExclusionsOf(superseded, DuplicateSuperseded);
    ExclusionsAreOrdered();
    SortContents(listed, ExclusionLeq);
    SortIsSorted(listed, ExclusionLeq);
  }

  // ---------------------------------------------------------------- build_scoring_panel

  method SplitByCompleteness(preds: seq<Prediction>, dataEnd: int) returns (complete: seq<Prediction>, excluded: seq<Exclusion>)
    ensures complete == CompleteOnes(preds, dataEnd)
    ensures excluded == ExclusionsOf(IncompleteOnes(preds, dataEnd), IncompleteTargetWindow)
  {
    complete, excluded := [], [];
    for i := 0 to |preds|
      invariant complete == CompleteOnes(preds[..i], dataEnd)
      invariant excluded == ExclusionsOf(IncompleteOnes(preds[..i], dataEnd), IncompleteTargetWindow)
    {
      var p := preds[i];
      assert preds[..i + 1] == preds[..i] + [p];
      HavingAppend(preds[..i], p, CompleteBy(dataEnd), true);
      HavingAppend(preds[..i], p, CompleteBy(dataEnd), false);
      if p.targetEnd > dataEnd {
        excluded := excluded + [ExclusionOf(p, IncompleteTargetWindow)];
      } else {
        complete := complete + [p];
      }
    }
    assert preds[..|preds|] == preds;
  }

  /** Settles every outcome: its survivor is kept on its date, the others go to the ledger. */
  method Settle(groups: map<Key, seq<Prediction>>, ghost complete: seq<Prediction>)
    returns (byDate: map<int, seq<Observation>>, lost: seq<Exclusion>, ghost kept: seq<Prediction>, ghost superseded: seq<Prediction>)
    requires Groups(groups, complete, KeyOf) && forall k :: k in groups ==> DistinctFolds(groups[k])
    ensures Settled(complete, groups.Keys, kept, superseded)
    ensures KeptByDate(byDate, kept)
    ensures lost == ExclusionsOf(superseded, DuplicateSuperseded)
  {
    hide Settled, KeptByDate, DistinctFolds, Having, FitLeq, OnDate;
    byDate, lost, kept, superseded := map[], [], [], [];
    NothingSettled(complete);
    assert KeptByDate(byDate, kept) by { NothingKept(); }
    var todo := groups.Keys;
    assert groups.Keys - todo == {};
    while todo != {}
      invariant todo <= groups.Keys
      invariant Settled(complete, groups.Keys - todo, kept, superseded)
      invariant KeptByDate(byDate, kept)
      invariant lost == ExclusionsOf(superseded, DuplicateSuperseded)
    {
      var k :| k in todo;
      var winner, rest := DedupLatestFit(groups[k]);
      SettleOne(complete, groups.Keys - todo, kept, superseded, k, winner, rest);
      KeepOne(byDate, kept, winner);
      assert groups.Keys - todo + {k} == groups.Keys - (todo - {k});
      lost := lost + ExclusionsOf(rest, DuplicateSuperseded);
      byDate := byDate[winner.asOf := (if winner.asOf in byDate then byDate[winner.asOf] else []) + [ObservationOf(winner)]];
      kept, superseded := kept + [winner], superseded + rest;
      todo := todo - {k};
    }
    assert groups.Keys - {} == groups.Keys;
  }

  lemma NothingKept()
    ensures KeptByDate(map[], [])
  {
  }

  /**
   * Builds the panel, or names the first check that fails. The outcomes are settled in an
   * arbitrary order here; PanelIsUnique shows that the order cannot matter.
   */
  method BuildScoringPanel(preds: seq<Prediction>, dataEnd: int, policy: Policy) returns (res: Result<Panel, PanelError>)
    ensures match Refusal(preds, dataEnd, policy)
            case Some(e) => res == Failure(e)
            case None => res.Success? && PanelOf(res.value, preds, dataEnd)
  {
    hide OneHorizon, OneWindowPerDate, DistinctFolds, Groups, WithKey, CompleteOnes, IncompleteOnes, Settled, KeptByDate, ShowsKept,
      Ledgers, Partition, OutcomesOnce, SortBy, ExclusionLeq;
    if preds == [] {
      return Failure(EmptySet);
    }
    var sameHorizon := HorizonsAgree(preds);
    if !sameHorizon {
      return Failure(MixedHorizons);
    }
    var sameWindow := WindowsAgree(preds);
    if !sameWindow {
      return Failure(MixedWindows);
    }
    var complete, excluded := SplitByCompleteness(preds, dataEnd);
    var groups, order := GroupBy(complete, KeyOf);
    var refusal := CheckDuplicates(groups, policy);
    GroupsDecide(groups, complete);
    if refusal.Some? {
      return Failure(refusal.value);
    }
    var byDate, lost, kept, superseded := Settle(groups, complete);
    EveryMemberGrouped(groups, complete, KeyOf);
    AllSettled(preds, dataEnd, groups.Keys, kept, superseded);
    KeptWindowsAgree(preds, dataEnd, kept, superseded);
    var dates, observations := Arrange(byDate, kept);
    LedgerSorted(IncompleteOnes(preds, dataEnd), superseded);
    var panel := Panel(preds[0].horizonSteps, dataEnd, dates, observations, SortBy(excluded + lost, ExclusionLeq));
    assert forall p :: p in preds ==> panel.horizonSteps == p.horizonSteps by { SameHorizonAsFirst(preds); }
    assert Shows(panel, preds, dataEnd, kept, superseded, IncompleteOnes(preds, dataEnd));
    return Success(panel);
  }

  lemma SameHorizonAsFirst(preds: seq<Prediction>)
    requires preds != [] && OneHorizon(preds)
    ensures forall p :: p in preds ==> preds[0].horizonSteps == p.horizonSteps
  {
    assert preds[0] in preds;
  }

  lemma GroupsDecide(groups: map<Key, seq<Prediction>>, complete: seq<Prediction>)
    requires Groups(groups, complete, KeyOf)
    ensures FoldsDiffer(complete) <==> forall k :: k in groups ==> DistinctFolds(groups[k])
    ensures OutcomesDiffer(complete) <==> forall k :: k in groups ==> |groups[k]| <= 1
  {
    hide Having;
    forall k ensures k !in groups ==> WithKey(complete, k) == [] {
    }
    forall k ensures k in groups ==> WithKey(complete, k) == groups[k] {
    }
  }

  lemma KeptWindowsAgree(preds: seq<Prediction>, dataEnd: int, kept: seq<Prediction>, superseded: seq<Prediction>)
    requires Partition(preds, dataEnd, kept, superseded, IncompleteOnes(preds, dataEnd)) && OneWindowPerDate(preds)
    ensures OneWindowPerDate(kept)
  {
    hide IncompleteOnes, Survives, Complete;
    forall p | p in kept ensures p in preds {
      assert p in multiset(kept) && p in multiset(preds);
    }
  }
}

/** What a scoring panel guarantees: nothing counted twice, nothing lost, nothing unrealised, and no dependence on order. */
module ScoringPanelTheorems {
  import opened Grouping
  import opened Ordering
  import opened ScoringPanel

  // ---------------------------------------------------------------- nothing counted twice

  /** Each shown observation is a kept prediction of its date. */
  lemma ShownIsKept(observations: map<int, seq<Observation>>, dates: seq<int>, kept: seq<Prediction>, d: int, i: nat)
      returns (p: Prediction)
    requires ShowsKept(dates, observations, kept) && d in observations && i < |observations[d]|
    ensures p in kept && p.asOf == d && observations[d][i] == ObservationOf(p)
  {
    hide Having, StrictlyBySecurity, Ascending;
    var listed := ObservationsOf(OnDate(kept, d));
    assert observations[d][i] in multiset(listed);
    var j :| 0 <= j < |listed| && listed[j] == observations[d][i];
    p := OnDate(kept, d)[j];
    HavingMembers(kept, DateOf, d);
  }

  /** No (security, target end) and no (security, date) is scored twice, and every scored window has realised. */
  lemma OutcomesScoredOnce(panel: Panel, preds: seq<Prediction>, dataEnd: int, d: int, i: nat, e: int, j: nat)
    requires PanelOf(panel, preds, dataEnd)
    requires d in panel.observations && i < |panel.observations[d]|
    requires e in panel.observations && j < |panel.observations[e]|
    ensures panel.observations[d][i].asOf == d && panel.observations[d][i].targetEnd <= dataEnd
    ensures d == e && i != j ==> panel.observations[d][i].securityId != panel.observations[e][j].securityId
    ensures (d, i) != (e, j)
            ==> (panel.observations[d][i].securityId, panel.observations[d][i].targetEnd)
                != (panel.observations[e][j].securityId, panel.observations[e][j].targetEnd)
  {
    hide Ledgers, Ascending, Having, FitLeq, IdLess;
    var kept, superseded, incomplete :| Shows(panel, preds, dataEnd, kept, superseded, incomplete);
    var p := ShownIsKept(panel.observations, panel.dates, kept, d, i);
    var q := ShownIsKept(panel.observations, panel.dates, kept, e, j);
    assert Survives(p, preds, dataEnd);
    if d == e {
      IdLessTotal(panel.observations[d][i].securityId, panel.observations[d][j].securityId);
      assert StrictlyBySecurity(panel.observations[d]);
      assert i < j ==> IdLess(panel.observations[d][i].securityId, panel.observations[d][j].securityId);
      assert j < i ==> IdLess(panel.observations[d][j].securityId, panel.observations[d][i].securityId);
    } else {
      KeysDiffer(kept, p, q);
    }
  }

  lemma KeysDiffer(kept: seq<Prediction>, p: Prediction, q: Prediction)
    requires OutcomesOnce(kept) && p in kept && q in kept && p != q
    ensures KeyOf(p) != KeyOf(q)
  {
    var i :| 0 <= i < |kept| && kept[i] == p;
    var j :| 0 <= j < |kept| && kept[j] == q;
    if i < j {
      assert KeyOf(kept[i]) != KeyOf(kept[j]);
    } else {
      assert KeyOf(kept[j]) != KeyOf(kept[i]);
    }
  }

  // ---------------------------------------------------------------- nothing lost

  function TotalObservations(dates: seq<int>, observations: map<int, seq<Observation>>): nat
    requires forall d :: d in dates ==> d in observations
  {
    if dates == [] then 0
    else
      var d := dates[|dates| - 1];
      assert d in dates;
      TotalObservations(dates[..|dates| - 1], observations) + |observations[d]|
  }

  lemma {:induction false} DatesCount(dates: seq<int>, observations: map<int, seq<Observation>>, kept: seq<Prediction>, ds: set<int>)
    requires forall d :: d in dates ==> d in observations && |observations[d]| == |OnDate(kept, d)|
    requires Ascending(dates) && forall d :: d in ds <==> d in dates
    ensures TotalObservations(dates, observations) == |HavingAny(kept, DateOf, ds)|
    decreases |dates|
  {
    hide Having, HavingAny, Ascending;
    if dates == [] {
      forall d ensures d in ds <==> d in {} {
      }
      assert ds == {};
      NoKeys(kept, DateOf);
    } else {
      var d := dates[|dates| - 1];
      var init := dates[..|dates| - 1];
      assert dates == init + [d];
      LastDate(init, d, ds);
      DatesCount(init, observations, kept, ds - {d});
      OneMoreKey(kept, DateOf, ds - {d}, d);
    }
  }

  lemma LastDate(init: seq<int>, last: int, ds: set<int>)
    requires Ascending(init + [last]) && forall d :: d in ds <==> d in init + [last]
    ensures Ascending(init)
    ensures forall d :: d in ds - {last} <==> d in init
    ensures ds - {last} + {last} == ds
  {
    assert forall i :: 0 <= i < |init| ==> (init + [last])[i] == init[i];
    assert (init + [last])[|init|] == last;
    assert last !in init;
    forall d ensures d in ds - {last} + {last} <==> d in ds {
    }
    assert ds - {last} + {last} == ds;
  }

  /** Every prediction of the set is one observation or one ledger line. */
  lemma EveryPredictionAccounted(panel: Panel, preds: seq<Prediction>, dataEnd: int)
    requires PanelOf(panel, preds, dataEnd)
    ensures forall d :: d in panel.dates ==> d in panel.observations
    ensures TotalObservations(panel.dates, panel.observations) + |panel.excluded| == |preds|
  {
    hide Survives, Having, HavingAny, OutcomesOnce, StrictlyBySecurity, TotalObservations, ExclusionLeq, Ascending, Sorted;
    var kept, superseded, incomplete :| Shows(panel, preds, dataEnd, kept, superseded, incomplete);
    var ds := set d | d in panel.dates;
    forall p: Prediction | p in kept ensures p.asOf in ds {
      HavingMembers(kept, DateOf, p.asOf);
      assert p in OnDate(kept, p.asOf);
    }
    AllKeys(kept, DateOf, ds);
    forall d | d in panel.dates ensures d in panel.observations && |panel.observations[d]| == |OnDate(kept, d)| {
      SameLength(panel.observations[d], ObservationsOf(OnDate(kept, d)));
    }
    forall d ensures d in ds <==> d in panel.dates {
    }
    DatesCount(panel.dates, panel.observations, kept, ds);
    SameLength(panel.excluded, ExclusionsOf(incomplete, IncompleteTargetWindow) + ExclusionsOf(superseded, DuplicateSuperseded));
    SameLength(preds, kept + superseded + incomplete);
  }

  /** Which of the three fates a prediction meets. */
  lemma FateOfPrediction(panel: Panel, preds: seq<Prediction>, dataEnd: int, p: Prediction)
    requires PanelOf(panel, preds, dataEnd) && p in preds
    ensures Survives(p, preds, dataEnd) ==> p.asOf in panel.observations && ObservationOf(p) in panel.observations[p.asOf]
    ensures Complete(p, dataEnd) && !Survives(p, preds, dataEnd) ==> ExclusionOf(p, DuplicateSuperseded) in panel.excluded
    ensures !Complete(p, dataEnd) ==> ExclusionOf(p, IncompleteTargetWindow) in panel.excluded
  {
    hide Survives, Having, OutcomesOnce, StrictlyBySecurity, ExclusionLeq, Ascending, Sorted, Complete;
    var kept, superseded, incomplete :| Shows(panel, preds, dataEnd, kept, superseded, incomplete);
    assert p in multiset(kept) + multiset(superseded) + multiset(incomplete);
    Incomplete(p, preds, dataEnd);
    if p in kept {
      HavingMembers(kept, DateOf, p.asOf);
      var i :| 0 <= i < |OnDate(kept, p.asOf)| && OnDate(kept, p.asOf)[i] == p;
      assert ObservationsOf(OnDate(kept, p.asOf))[i] == ObservationOf(p);
      assert ObservationOf(p) in multiset(panel.observations[p.asOf]);
    } else if p in superseded {
      var i :| 0 <= i < |superseded| && superseded[i] == p;
      assert ExclusionsOf(superseded, DuplicateSuperseded)[i] == ExclusionOf(p, DuplicateSuperseded);
      assert ExclusionOf(p, DuplicateSuperseded) in multiset(panel.excluded);
    } else {
      var i :| 0 <= i < |incomplete| && incomplete[i] == p;
      assert ExclusionsOf(incomplete, IncompleteTargetWindow)[i] == ExclusionOf(p, IncompleteTargetWindow);
      assert ExclusionOf(p, IncompleteTargetWindow) in multiset(panel.excluded);
    }
  }

  lemma Incomplete(p: Prediction, preds: seq<Prediction>, dataEnd: int)
    ensures Survives(p, preds, dataEnd) ==> Complete(p, dataEnd)
  {
  }

  // ---------------------------------------------------------------- no dependence on order

  lemma SameMembers(a: seq<Prediction>, b: seq<Prediction>)
    requires multiset(a) == multiset(b)
    ensures forall p :: p in a <==> p in b
  {
    forall p ensures p in a <==> p in b {
      assert p in a <==> p in multiset(a);
      assert p in b <==> p in multiset(b);
    }
  }

  /** How often a prediction is kept, superseded or incomplete is fixed by the input alone. */
  lemma PartitionCounts(
      preds: seq<Prediction>, dataEnd: int, kept: seq<Prediction>, superseded: seq<Prediction>, incomplete: seq<Prediction>,
      p: Prediction)
    requires Partition(preds, dataEnd, kept, superseded, incomplete)
    ensures multiset(kept)[p] == if Survives(p, preds, dataEnd) then multiset(preds)[p] else 0
    ensures multiset(incomplete)[p] == if Complete(p, dataEnd) then 0 else multiset(preds)[p]
    ensures multiset(superseded)[p] == if Complete(p, dataEnd) && !Survives(p, preds, dataEnd) then multiset(preds)[p] else 0
  {
    Incomplete(p, preds, dataEnd);
    hide Survives, Complete;
    assert p in multiset(kept) ==> p in kept;
    assert p in multiset(superseded) ==> p in superseded;
    assert p in multiset(incomplete) ==> p in incomplete;
    assert (multiset(kept) + multiset(superseded) + multiset(incomplete))[p] == multiset(preds)[p];
  }

  lemma SamePartition(
      a: seq<Prediction>, b: seq<Prediction>, dataEnd: int,
      ka: seq<Prediction>, sa: seq<Prediction>, ia: seq<Prediction>, kb: seq<Prediction>, sb: seq<Prediction>, ib: seq<Prediction>)
    requires multiset(a) == multiset(b)
    requires Partition(a, dataEnd, ka, sa, ia) && Partition(b, dataEnd, kb, sb, ib)
    ensures multiset(ka) == multiset(kb) && multiset(sa) == multiset(sb) && multiset(ia) == multiset(ib)
  {
    hide Partition;
    SameMembers(a, b);
    forall p ensures multiset(ka)[p] == multiset(kb)[p] && multiset(sa)[p] == multiset(sb)[p] && multiset(ia)[p] == multiset(ib)[p] {
      PartitionCounts(a, dataEnd, ka, sa, ia, p);
      PartitionCounts(b, dataEnd, kb, sb, ib, p);
      assert Survives(p, a, dataEnd) == Survives(p, b, dataEnd);
    }
  }

  lemma SameFirst(a: seq<Observation>, b: seq<Observation>)
    requires StrictlyBySecurity(a) && StrictlyBySecurity(b) && multiset(a) == multiset(b) && a != []
    ensures b != [] && a[0] == b[0]
  {
    hide IdLess;
    assert a[0] in multiset(b);
    assert b[0] in multiset(a);
    var j :| 0 <= j < |b| && b[j] == a[0];
    var i :| 0 <= i < |a| && a[i] == b[0];
    assert j > 0 ==> IdLess(b[0].securityId, b[j].securityId);
    assert i > 0 ==> IdLess(a[0].securityId, a[i].securityId);
    IdLessTotal(a[0].securityId, b[0].securityId);
  }

  lemma StrictTail(a: seq<Observation>)
    requires StrictlyBySecurity(a) && a != []
    ensures StrictlyBySecurity(a[1..])
  {
  }

  /** A cross-section ordered strictly by security is determined by its contents. */
  lemma {:induction false} StrictIsUnique(a: seq<Observation>, b: seq<Observation>)
    requires StrictlyBySecurity(a) && StrictlyBySecurity(b) && multiset(a) == multiset(b)
    ensures a == b
    decreases |a|
  {
    SameLength(a, b);
    if a != [] {
      hide IdLess, StrictlyBySecurity;
      SameFirst(a, b);
      Without(a, b, 0);
      assert b[..0] + b[1..] == b[1..];
      StrictTail(a);
      StrictTail(b);
      StrictIsUnique(a[1..], b[1..]);
      assert a == [a[0]] + a[1..] && b == [b[0]] + b[1..];
    }
  }

  lemma {:induction false} AscendingIsUnique(a: seq<int>, b: seq<int>)
    requires Ascending(a) && Ascending(b) && forall d :: d in a <==> d in b
    ensures a == b
  {
    forall d ensures d in a <==> d in b {
    }
    SameContents(a, b);
    SortedUnique(a, b, DateLeq);
  }

  lemma SameShown(
      da: seq<int>, oa: map<int, seq<Observation>>, ka: seq<Prediction>, db: seq<int>, ob: map<int, seq<Observation>>, kb: seq<Prediction>)
    requires multiset(ka) == multiset(kb)
    requires ShowsKept(da, oa, ka) && ShowsKept(db, ob, kb)
    ensures da == db && oa == ob
  {
    hide Having, StrictlyBySecurity, Ascending, ObservationOf;
    forall d ensures OnDate(ka, d) == [] <==> OnDate(kb, d) == [] {
      HavingPermutes(ka, kb, DateOf, d);
    }
    forall d ensures d in oa.Keys <==> d in ob.Keys {
    }
    assert oa.Keys == ob.Keys;
    AscendingIsUnique(da, db);
    forall d | d in oa ensures oa[d] == ob[d] {
      HavingPermutes(ka, kb, DateOf, d);
      MappedPermutes(OnDate(ka, d), OnDate(kb, d), ObservationOf);
      StrictIsUnique(oa[d], ob[d]);
    }
  }

  lemma SameLedger(ea: seq<Exclusion>, sa: seq<Prediction>, ia: seq<Prediction>, eb: seq<Exclusion>, sb: seq<Prediction>, ib: seq<Prediction>)
    requires multiset(sa) == multiset(sb) && multiset(ia) == multiset(ib)
    requires Ledgers(ea, sa, ia) && Ledgers(eb, sb, ib)
    ensures ea == eb
  {
    hide ExclusionLeq;
    SameExclusions(sa, sb, DuplicateSuperseded);
    SameExclusions(ia, ib, IncompleteTargetWindow);
    ExclusionsAreOrdered();
    SortedUnique(ea, eb, ExclusionLeq);
  }

  lemma SameExclusions(a: seq<Prediction>, b: seq<Prediction>, reason: Reason)
    requires multiset(a) == multiset(b)
    ensures multiset(ExclusionsOf(a, reason)) == multiset(ExclusionsOf(b, reason))
  {
    var f := (p: Prediction) => ExclusionOf(p, reason);
    MappedPermutes(a, b, f);
    assert ExclusionsOf(a, reason) == Mapped(a, f);
    assert ExclusionsOf(b, reason) == Mapped(b, f);
  }

  /** The panel of a prediction set is unique, and the same for every order of the predictions. */
  lemma PanelIsUnique(a: seq<Prediction>, b: seq<Prediction>, dataEnd: int, pa: Panel, pb: Panel)
    requires multiset(a) == multiset(b) && a != []
    requires PanelOf(pa, a, dataEnd) && PanelOf(pb, b, dataEnd)
    ensures pa == pb
  {
    hide Partition, ShowsKept, Ledgers, OutcomesOnce;
    var ka, sa, ia :| Shows(pa, a, dataEnd, ka, sa, ia);
    var kb, sb, ib :| Shows(pb, b, dataEnd, kb, sb, ib);
    SamePartition(a, b, dataEnd, ka, sa, ia, kb, sb, ib);
    SameShown(pa.dates, pa.observations, ka, pb.dates, pb.observations, kb);
    SameLedger(pa.excluded, sa, ia, pb.excluded, sb, ib);
    SameMembers(a, b);
    assert a[0] in a && a[0] in b;
  }

  function FoldOf(p: Prediction): Id {
    p.foldId
  }

  lemma SameDistinctness(a: seq<Prediction>, b: seq<Prediction>)
    requires multiset(a) == multiset(b)
    ensures |a| == |b|
    ensures DistinctFolds(a) ==> DistinctFolds(b)
  {
    SameLength(a, b);
    MappedPermutes(a, b, FoldOf);
    if DistinctFolds(a) {
      DistinctFromMultiset(Mapped(a, FoldOf), Mapped(b, FoldOf));
      forall i, j | 0 <= i < j < |b| ensures b[i].foldId != b[j].foldId {
        assert Mapped(b, FoldOf)[i] != Mapped(b, FoldOf)[j];
      }
    }
  }

  /** Whether, and why, a prediction set is refused does not depend on the order of the predictions. */
  lemma RefusalIgnoresOrder(a: seq<Prediction>, b: seq<Prediction>, dataEnd: int, policy: Policy)
    requires multiset(a) == multiset(b)
    ensures Refusal(a, dataEnd, policy) == Refusal(b, dataEnd, policy)
  {
    hide Having, DistinctFolds;
    SameLength(a, b);
    SameMembers(a, b);
    forall k
      ensures |WithKey(CompleteOnes(a, dataEnd), k)| == |WithKey(CompleteOnes(b, dataEnd), k)|
      ensures DistinctFolds(WithKey(CompleteOnes(a, dataEnd), k)) <==> DistinctFolds(WithKey(CompleteOnes(b, dataEnd), k))
    {
      var ga, gb := WithKey(CompleteOnes(a, dataEnd), k), WithKey(CompleteOnes(b, dataEnd), k);
      HavingPermutes(a, b, CompleteBy(dataEnd), true);
      HavingPermutes(CompleteOnes(a, dataEnd), CompleteOnes(b, dataEnd), KeyOf, k);
      SameDistinctness(ga, gb);
      SameDistinctness(gb, ga);
    }
  }
}

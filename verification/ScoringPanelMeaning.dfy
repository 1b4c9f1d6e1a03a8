/** What a panel shows, ledgers and refuses, field by field, from the predictions alone. */
module ScoringPanelMeaning {
  import opened Grouping
  import opened Ordering
  import opened Wrappers
  import opened ScoringPanel
  import opened ScoringPanelTheorems

  /** Two predictions of one realised outcome. */
  predicate SameOutcome(p: Prediction, q: Prediction) {
    p.securityId == q.securityId && p.targetEnd == q.targetEnd
  }

  /** p was fitted after q, or at the same time in a later fold. */
  predicate FittedLater(p: Prediction, q: Prediction) {
    p.modelFitTime > q.modelFitTime || (p.modelFitTime == q.modelFitTime && IdLess(q.foldId, p.foldId))
  }

  // ---------------------------------------------------------------- what is shown

  /** Every observation is one realised prediction of its date, and no prediction of its outcome was fitted later. */
  lemma ObservationMeans(panel: Panel, preds: seq<Prediction>, dataEnd: int, d: int, i: nat) returns (p: Prediction)
    requires PanelOf(panel, preds, dataEnd) && d in panel.observations && i < |panel.observations[d]|
    ensures p in preds && p.asOf == d && p.targetEnd <= dataEnd
    ensures var o := panel.observations[d][i];
            && o.securityId == p.securityId && o.asOf == p.asOf && o.score == p.score && o.realizedReturn == p.targetRaw
            && o.foldId == p.foldId && o.modelFitTime == p.modelFitTime && o.targetEnd == p.targetEnd
    ensures forall q :: q in preds && SameOutcome(q, p) ==> !FittedLater(q, p)
  {
    hide Ledgers, Having, IdLess, StrictlyBySecurity, OutcomesOnce;
    var kept, superseded, incomplete :| Shows(panel, preds, dataEnd, kept, superseded, incomplete);
    p := ShownIsKept(panel.observations, panel.dates, kept, d, i);
    assert p in multiset(kept) + multiset(superseded) + multiset(incomplete);
    forall q | q in preds && SameOutcome(q, p) ensures !FittedLater(q, p) {
      assert FitLeq(q, p);
      IdLessTotal(q.foldId, p.foldId);
    }
  }

  /** Somewhere among the predictions of an outcome is one than which none was fitted later. */
  lemma {:induction false} SomeLatest(preds: seq<Prediction>, q: Prediction) returns (p: Prediction)
    requires q in preds
    ensures p in preds && SameOutcome(p, q)
    ensures forall r :: r in preds && SameOutcome(r, q) ==> FitLeq(r, p)
    decreases |preds|
  {
    hide FitLeq;
    var n := |preds| - 1;
    var last := preds[n];
    assert preds == preds[..n] + [last];
    if exists r :: r in preds[..n] && SameOutcome(r, q) {
      var r :| r in preds[..n] && SameOutcome(r, q);
      p := SomeLatest(preds[..n], r);
      LaterOf(p, last);
      if SameOutcome(last, q) && !FitLeq(last, p) {
        forall s | s in preds && SameOutcome(s, q) ensures FitLeq(s, last) {
          if s in preds[..n] {
            FitsChain(s, p, last);
          } else {
            LaterOf(s, s);
          }
        }
        p := last;
      }
    } else {
      p := last;
      LaterOf(last, last);
      assert q == last;
    }
  }

  lemma LaterOf(p: Prediction, q: Prediction)
    ensures FitLeq(p, q) || FitLeq(q, p)
  {
    IdLessTotal(p.foldId, q.foldId);
  }

  lemma FitsChain(p: Prediction, q: Prediction, r: Prediction)
    requires FitLeq(p, q) && FitLeq(q, r)
    ensures FitLeq(p, r)
  {
    hide IdLess;
    if IdLess(p.foldId, q.foldId) && IdLess(q.foldId, r.foldId) {
      IdLessTransitive(p.foldId, q.foldId, r.foldId);
    }
  }

  /** Every realised outcome that was predicted is shown. */
  lemma OutcomeShown(panel: Panel, preds: seq<Prediction>, dataEnd: int, q: Prediction)
    returns (d: int, o: Observation)
    requires PanelOf(panel, preds, dataEnd) && q in preds && q.targetEnd <= dataEnd
    ensures d in panel.dates && d in panel.observations && o in panel.observations[d]
    ensures o.securityId == q.securityId && o.targetEnd == q.targetEnd
  {
    hide FitLeq;
    var p := SomeLatest(preds, q);
    assert Survives(p, preds, dataEnd);
    FateOfPrediction(panel, preds, dataEnd, p);
    d, o := p.asOf, ObservationOf(p);
    DatesListed(panel, preds, dataEnd, d);
  }

  lemma DatesListed(panel: Panel, preds: seq<Prediction>, dataEnd: int, d: int)
    requires PanelOf(panel, preds, dataEnd)
    ensures d in panel.dates <==> d in panel.observations
  {
    hide Partition, Ledgers, Having;
    var kept, superseded, incomplete :| Shows(panel, preds, dataEnd, kept, superseded, incomplete);
  }

  // ---------------------------------------------------------------- what is ledgered

  /** Every ledger line is a prediction whose window has not realised, or than which another of its outcome was fitted later. */
  lemma ExclusionMeans(panel: Panel, preds: seq<Prediction>, dataEnd: int, i: nat) returns (p: Prediction)
    requires PanelOf(panel, preds, dataEnd) && i < |panel.excluded|
    ensures p in preds
    ensures var e := panel.excluded[i];
            && e.foldId == p.foldId && e.securityId == p.securityId && e.asOf == p.asOf
            && (e.reason == IncompleteTargetWindow ==> p.targetEnd > dataEnd)
            && (e.reason == DuplicateSuperseded ==>
                  p.targetEnd <= dataEnd && exists q :: q in preds && SameOutcome(q, p) && FittedLater(q, p))
  {
    hide ShowsKept, OutcomesOnce, ExclusionLeq, FittedLater, FitLeq;
    var kept, superseded, incomplete :| Shows(panel, preds, dataEnd, kept, superseded, incomplete);
    var e := panel.excluded[i];
    assert e in multiset(panel.excluded);
    if e in multiset(ExclusionsOf(incomplete, IncompleteTargetWindow)) {
      var j :| 0 <= j < |incomplete| && ExclusionsOf(incomplete, IncompleteTargetWindow)[j] == e;
      p := incomplete[j];
      assert p in incomplete;
      assert p in multiset(kept) + multiset(superseded) + multiset(incomplete);
    } else {
      assert e in multiset(ExclusionsOf(superseded, DuplicateSuperseded));
      var j :| 0 <= j < |superseded| && ExclusionsOf(superseded, DuplicateSuperseded)[j] == e;
      p := superseded[j];
      assert p in superseded && Complete(p, dataEnd) && !Survives(p, preds, dataEnd);
      assert p in multiset(kept) + multiset(superseded) + multiset(incomplete);
      Superseded(p, preds, dataEnd);
    }
  }

  lemma Superseded(p: Prediction, preds: seq<Prediction>, dataEnd: int)
    requires Complete(p, dataEnd) && !Survives(p, preds, dataEnd)
    ensures p.targetEnd <= dataEnd && exists q :: q in preds && SameOutcome(q, p) && FittedLater(q, p)
  {
    var q :| q in preds && Complete(q, dataEnd) && KeyOf(q) == KeyOf(p) && !FitLeq(q, p);
    IdLessTotal(q.foldId, p.foldId);
    assert FittedLater(q, p);
  }

  /** Ledger lines ascend by date, security, reason and fold: superseded duplicates come before incomplete windows. */
  lemma LedgerAscends(panel: Panel, preds: seq<Prediction>, dataEnd: int, i: nat, j: nat)
    requires PanelOf(panel, preds, dataEnd) && i < j < |panel.excluded|
    ensures var a, b := panel.excluded[i], panel.excluded[j];
            && a.asOf <= b.asOf
            && (a.asOf == b.asOf ==> !IdLess(b.securityId, a.securityId))
            && (a.asOf == b.asOf && a.securityId == b.securityId ==>
                  && !(a.reason == IncompleteTargetWindow && b.reason == DuplicateSuperseded)
                  && (a.reason == b.reason ==> !IdLess(b.foldId, a.foldId)))
  {
    hide Partition, ShowsKept, OutcomesOnce, IdLess;
    var kept, superseded, incomplete :| Shows(panel, preds, dataEnd, kept, superseded, incomplete);
    var a, b := panel.excluded[i], panel.excluded[j];
    assert ExclusionLeq(a, b);
    IdLessTotal(a.securityId, b.securityId);
    IdLessTotal(a.foldId, b.foldId);
  }

  // ---------------------------------------------------------------- what is refused

  ghost predicate HorizonsMixed(preds: seq<Prediction>) {
    exists p, q :: p in preds && q in preds && p.horizonSteps != q.horizonSteps
  }

  ghost predicate WindowsMixed(preds: seq<Prediction>) {
    exists p, q :: p in preds && q in preds && p.asOf == q.asOf && (p.targetStart != q.targetStart || p.targetEnd != q.targetEnd)
  }

  /** Some member of a list stands in a relation to a later one. */
  ghost predicate HasPair<R>(s: seq<R>, rel: (R, R) -> bool) {
    exists i, j :: 0 <= i < j < |s| && rel(s[i], s[j])
  }

  /** Two predictions of one realised outcome; and of one fold besides. */
  function Repeated(dataEnd: int): (Prediction, Prediction) -> bool {
    (p: Prediction, q: Prediction) => p.targetEnd <= dataEnd && SameOutcome(p, q)
  }

  function FoldRepeated(dataEnd: int): (Prediction, Prediction) -> bool {
    (p: Prediction, q: Prediction) => p.targetEnd <= dataEnd && SameOutcome(p, q) && p.foldId == q.foldId
  }

  lemma PairAppend<R>(s: seq<R>, x: R, rel: (R, R) -> bool)
    ensures HasPair(s + [x], rel) <==> HasPair(s, rel) || exists y :: y in s && rel(y, x)
  {
    var t := s + [x];
    if i, j :| 0 <= i < j < |t| && rel(t[i], t[j]) {
      if j < |s| {
        assert rel(s[i], s[j]);
      } else {
        assert s[i] in s && rel(s[i], x);
      }
    }
    if i, j :| 0 <= i < j < |s| && rel(s[i], s[j]) {
      assert rel(t[i], t[j]);
    }
    if y :| y in s && rel(y, x) {
      var i :| 0 <= i < |s| && s[i] == y;
      assert rel(t[i], t[|s|]);
    }
  }

  function Keyed<R, K(==)>(key: R -> K, k: K, rel: (R, R) -> bool): (R, R) -> bool {
    (x, y) => key(x) == k && key(y) == k && rel(x, y)
  }

  /** A pair within a group is a pair of the list with the group's key. */
  lemma {:induction false} PairInGroup<R, K>(s: seq<R>, key: R -> K, k: K, rel: (R, R) -> bool)
    ensures HasPair(Having(s, key, k), rel) <==> HasPair(s, Keyed(key, k, rel))
    decreases |s|
  {
    if s != [] {
      hide HasPair, Having;
      var n := |s| - 1;
      var x := s[n];
      assert s == s[..n] + [x];
      PairInGroup(s[..n], key, k, rel);
      HavingAppend(s[..n], x, key, k);
      HavingMembers(s[..n], key, k);
      PairAppend(s[..n], x, Keyed(key, k, rel));
      PairAppend(Having(s[..n], key, k), x, rel);
      KeyedToLast(s[..n], x, key, k, rel);
      if key(x) == k {
        assert Having(s, key, k) == Having(s[..n], key, k) + [x];
      } else {
        assert Having(s, key, k) == Having(s[..n], key, k);
      }
    }
  }

  lemma KeyedToLast<R, K>(s: seq<R>, x: R, key: R -> K, k: K, rel: (R, R) -> bool)
    ensures (exists y :: y in s && Keyed(key, k, rel)(y, x))
       <==> key(x) == k && exists y :: y in Having(s, key, k) && rel(y, x)
  {
    hide Having;
    HavingMembers(s, key, k);
    if y :| y in s && Keyed(key, k, rel)(y, x) {
      assert y in Having(s, key, k) && rel(y, x);
    }
    if key(x) == k && exists y :: y in Having(s, key, k) && rel(y, x) {
      var y :| y in Having(s, key, k) && rel(y, x);
      assert y in s && Keyed(key, k, rel)(y, x);
    }
  }

  lemma SamePairs<R>(s: seq<R>, rel: (R, R) -> bool, other: (R, R) -> bool)
    requires forall x, y :: rel(x, y) ==> other(x, y)
    ensures HasPair(s, rel) ==> HasPair(s, other)
  {
    if i, j :| 0 <= i < j < |s| && rel(s[i], s[j]) {
      assert other(s[i], s[j]);
    }
  }

  lemma PairOfSomeKey(preds: seq<Prediction>, dataEnd: int, rel: (Prediction, Prediction) -> bool, repeated: (Prediction, Prediction) -> bool)
    requires forall p, q :: repeated(p, q) <==> p.targetEnd <= dataEnd && SameOutcome(p, q) && rel(p, q)
    ensures HasPair(preds, repeated) <==> exists k :: HasPair(WithKey(CompleteOnes(preds, dataEnd), k), rel)
  {
    hide Having;
    forall k
      ensures HasPair(WithKey(CompleteOnes(preds, dataEnd), k), rel)
         <==> HasPair(preds, Keyed(CompleteBy(dataEnd), true, Keyed(KeyOf, k, rel)))
    {
      PairInGroup(CompleteOnes(preds, dataEnd), KeyOf, k, rel);
      PairInGroup(preds, CompleteBy(dataEnd), true, Keyed(KeyOf, k, rel));
    }
    if i, j :| 0 <= i < j < |preds| && repeated(preds[i], preds[j]) {
      var k := KeyOf(preds[i]);
      assert Keyed(CompleteBy(dataEnd), true, Keyed(KeyOf, k, rel))(preds[i], preds[j]);
      assert HasPair(WithKey(CompleteOnes(preds, dataEnd), k), rel);
    }
    if k :| HasPair(WithKey(CompleteOnes(preds, dataEnd), k), rel) {
      forall p, q | Keyed(CompleteBy(dataEnd), true, Keyed(KeyOf, k, rel))(p, q) ensures repeated(p, q) {
        assert Keyed(KeyOf, k, rel)(p, q) && KeyOf(p) == KeyOf(q);
      }
      SamePairs(preds, Keyed(CompleteBy(dataEnd), true, Keyed(KeyOf, k, rel)), repeated);
    }
  }

  function Any(): (Prediction, Prediction) -> bool {
    (p: Prediction, q: Prediction) => true
  }

  function OneFold(): (Prediction, Prediction) -> bool {
    (p: Prediction, q: Prediction) => p.foldId == q.foldId
  }

  lemma GroupPairs(g: seq<Prediction>)
    ensures HasPair(g, Any()) <==> |g| > 1
    ensures HasPair(g, OneFold()) <==> !DistinctFolds(g)
  {
    if |g| > 1 {
      assert Any()(g[0], g[1]);
    }
    if !DistinctFolds(g) {
      var i, j :| 0 <= i < j < |g| && g[i].foldId == g[j].foldId;
      assert OneFold()(g[i], g[j]);
    }
  }

  lemma RepeatsIff(preds: seq<Prediction>, dataEnd: int)
    ensures OutcomesDiffer(CompleteOnes(preds, dataEnd)) <==> !HasPair(preds, Repeated(dataEnd))
    ensures FoldsDiffer(CompleteOnes(preds, dataEnd)) <==> !HasPair(preds, FoldRepeated(dataEnd))
  {
    hide HasPair, CompleteOnes, WithKey, DistinctFolds;
    PairOfSomeKey(preds, dataEnd, Any(), Repeated(dataEnd));
    PairOfSomeKey(preds, dataEnd, OneFold(), FoldRepeated(dataEnd));
    forall k
      ensures HasPair(WithKey(CompleteOnes(preds, dataEnd), k), Any()) <==> |WithKey(CompleteOnes(preds, dataEnd), k)| > 1
      ensures HasPair(WithKey(CompleteOnes(preds, dataEnd), k), OneFold()) <==> !DistinctFolds(WithKey(CompleteOnes(preds, dataEnd), k))
    {
      GroupPairs(WithKey(CompleteOnes(preds, dataEnd), k));
    }
  }

  /** Which refusal a set of predictions meets, in the order the checks are made. */
  lemma RefusalMeans(preds: seq<Prediction>, dataEnd: int, policy: Policy)
    ensures var r := Refusal(preds, dataEnd, policy);
            var mixed := HorizonsMixed(preds) || WindowsMixed(preds);
            && (r == Some(EmptySet) <==> preds == [])
            && (r == Some(MixedHorizons) <==> HorizonsMixed(preds))
            && (r == Some(MixedWindows) <==> !HorizonsMixed(preds) && WindowsMixed(preds))
            && (r == Some(DuplicateWithinFold) <==> !mixed && HasPair(preds, FoldRepeated(dataEnd)))
            && (r == Some(DuplicateOutcome) <==>
                  !mixed && !HasPair(preds, FoldRepeated(dataEnd)) && policy == Refuse && HasPair(preds, Repeated(dataEnd)))
            && (r == None <==>
                  preds != [] && !mixed && !HasPair(preds, FoldRepeated(dataEnd)) && (policy == LatestFit || !HasPair(preds, Repeated(dataEnd))))
  {
    hide FoldsDiffer, OutcomesDiffer, CompleteOnes;
    RepeatsIff(preds, dataEnd);
    assert OneHorizon(preds) <==> !HorizonsMixed(preds);
    assert OneWindowPerDate(preds) <==> !WindowsMixed(preds);
    assert preds == [] ==> !HorizonsMixed(preds) && !WindowsMixed(preds) && !HasPair(preds, FoldRepeated(dataEnd)) by { NoPairs(preds, dataEnd); }
  }

  lemma NoPairs(preds: seq<Prediction>, dataEnd: int)
    ensures preds == [] ==> !HasPair(preds, FoldRepeated(dataEnd))
  {
  }
}

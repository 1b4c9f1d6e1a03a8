/** What merging one interval's records returns, from the records as they come. */
module IntervalMeaning {
  import opened DataStage
  import opened IntervalMerge
  import opened Ordering
  import opened Wrappers

  /** The instant a record was known, in microseconds. */
  predicate KnownAt(row: Row, micros: int) {
    "knowledge_time" in row && row["knowledge_time"] == Instant(micros)
  }

  ghost predicate HasTime(row: Row) {
    exists micros :: KnownAt(row, micros)
  }

  /** Known before every other record, or at the same instant and listed before it. */
  predicate IsEarliest(group: seq<Row>, i: nat) {
    && i < |group|
    && forall j :: 0 <= j < |group| ==>
         KnowledgeOf(group[i]) < KnowledgeOf(group[j]) || (KnowledgeOf(group[i]) == KnowledgeOf(group[j]) && i <= j)
  }

  /** Known after every other record, or at the same instant and listed after it. */
  predicate IsLatest(group: seq<Row>, i: nat) {
    && i < |group|
    && forall j :: 0 <= j < |group| ==>
         KnowledgeOf(group[j]) < KnowledgeOf(group[i]) || (KnowledgeOf(group[i]) == KnowledgeOf(group[j]) && j <= i)
  }

  lemma {:induction false} InsertEnds(x: Row, s: seq<Row>)
    requires s != [] && Sorted(s, KnownNoLater)
    ensures |Insert(x, s, KnownNoLater)| == |s| + 1
    ensures Insert(x, s, KnownNoLater)[0] == if KnowledgeOf(x) <= KnowledgeOf(s[0]) then x else s[0]
    ensures Insert(x, s, KnownNoLater)[|s|] == if KnowledgeOf(x) > KnowledgeOf(s[|s| - 1]) then x else s[|s| - 1]
    decreases |s|
  {
    if KnowledgeOf(x) > KnowledgeOf(s[0]) && |s| > 1 {
      InsertEnds(x, s[1..]);
    } else if |s| > 1 {
      assert KnownNoLater(s[0], s[|s| - 1]);
    }
  }

  lemma {:induction false} SortEnds(group: seq<Row>) returns (first: nat, last: nat)
    requires group != []
    ensures IsEarliest(group, first) && IsLatest(group, last)
    ensures |SortBy(group, KnownNoLater)| == |group|
    ensures SortBy(group, KnownNoLater)[0] == group[first] && SortBy(group, KnownNoLater)[|group| - 1] == group[last]
    decreases |group|
  {
    var x, rest := group[0], group[1..];
    SortContents(group, KnownNoLater);
    SortUnfolds(group);
    if rest == [] {
      first, last := 0, 0;
    } else {
      hide SortBy, Insert, Sorted, IsEarliest, IsLatest, KnowledgeOf;
      var f, l := SortEnds(rest);
      KnownIsTotal();
      SortIsSorted(rest, KnownNoLater);
      InsertEnds(x, SortBy(rest, KnownNoLater));
      first := if KnowledgeOf(x) <= KnowledgeOf(rest[f]) then 0 else f + 1;
      last := if KnowledgeOf(x) > KnowledgeOf(rest[l]) then 0 else l + 1;
      EndsOfList(group, f, l, first, last);
    }
  }

  lemma SortUnfolds(group: seq<Row>)
    requires group != []
    ensures SortBy(group, KnownNoLater) == Insert(group[0], SortBy(group[1..], KnownNoLater), KnownNoLater)
    ensures group[1..] == [] ==> SortBy(group, KnownNoLater) == [group[0]]
  {
    if group[1..] == [] {
      assert SortBy(group[1..], KnownNoLater) == [];
    }
  }

  lemma KnownIsTotal()
    ensures TotalOrder(KnownNoLater)
  {
  }

  lemma EndsOfList(group: seq<Row>, f: nat, l: nat, first: nat, last: nat)
    requires |group| > 1 && IsEarliest(group[1..], f) && IsLatest(group[1..], l)
    requires first == if KnowledgeOf(group[0]) <= KnowledgeOf(group[1..][f]) then 0 else f + 1
    requires last == if KnowledgeOf(group[0]) > KnowledgeOf(group[1..][l]) then 0 else l + 1
    ensures IsEarliest(group, first) && IsLatest(group, last)
  {
    hide KnowledgeOf;
    forall j | 0 <= j < |group|
      ensures KnowledgeOf(group[first]) < KnowledgeOf(group[j]) || (KnowledgeOf(group[first]) == KnowledgeOf(group[j]) && first <= j)
      ensures KnowledgeOf(group[j]) < KnowledgeOf(group[last]) || (KnowledgeOf(group[last]) == KnowledgeOf(group[j]) && j <= last)
    {
      if j > 0 {
        assert group[j] == group[1..][j - 1];
      }
    }
  }

  const DAY_MICROS := 24 * 60 * 60 * 1_000_000

  /** A closure is published too late from the second midnight after the interval's end on. */
  lemma LateIff(micros: int, end: int)
    ensures DayOf(micros) > end + 1 <==> micros >= (end + 2) * DAY_MICROS
  {
  }

  /**
   * A group is refused for a record without a knowledge time, or for a last end that is not a day or is
   * published too late; otherwise its earliest record is returned with the end of its latest, if that has one.
   */
  lemma MergeMeans(group: seq<Row>, closureField: Id, first: nat, last: nat)
    requires group != [] && IsEarliest(group, first) && IsLatest(group, last)
    ensures MergeGroup(group, closureField) == Failure(NoKnowledgeTime)
       <==> exists i :: 0 <= i < |group| && !HasTime(group[i])
    ensures (forall i :: 0 <= i < |group| ==> HasTime(group[i])) ==>
              var end := if closureField in group[last] then group[last][closureField] else Null;
              MergeGroup(group, closureField) ==
              match end
              case Null => Success(group[first])
              case Text(_) => Failure(NonDateClosure)
              case Instant(_) => Failure(IncomparableClosure)
              case Day(day) =>
                if KnowledgeOf(group[last]) >= (day + 2) * DAY_MICROS then Failure(LateClosure)
                else Success(group[first][closureField := Day(day)])
  {
    hide DayOf, SortBy, HasTime, Stamped;
    forall i | 0 <= i < |group| ensures Stamped(group[i]) <==> HasTime(group[i]) {
      StampedIff(group[i]);
    }
    var f, l := SortEnds(group);
    var end := Get(group[last], closureField);
    if end.Day? {
      LateIff(KnowledgeOf(group[last]), end.day);
    }
  }

  lemma StampedIff(row: Row)
    ensures Stamped(row) <==> HasTime(row)
    ensures forall micros :: KnownAt(row, micros) ==> KnowledgeOf(row) == micros
  {
    if Stamped(row) {
      assert KnownAt(row, KnowledgeOf(row));
    }
  }
}

/** Collapsing the vintages of an interval into one row, without anticipating its end. */
module IntervalMerge {
  import opened DataStage
  import opened Grouping
  import opened Ordering
  import opened Wrappers

  datatype MergeError = NoKnowledgeTime | NonDateClosure | IncomparableClosure | LateClosure

  const MICROS_PER_DAY := 86_400_000_000

  /** datetime.date(): the day an instant falls on. */
  function DayOf(micros: int): int {
    micros / MICROS_PER_DAY
  }

  predicate Stamped(row: Row) {
    Get(row, KNOWLEDGE_TIME).Instant?
  }

  function KnowledgeOf(row: Row): int {
    match Get(row, KNOWLEDGE_TIME)
    case Instant(micros) => micros
    case _ => 0
  }

  predicate KnownNoLater(a: Row, b: Row) {
    KnowledgeOf(a) <= KnowledgeOf(b)
  }

  /** The vintages of an interval, by knowledge time. */
  function Vintages(group: seq<Row>): (vintages: seq<Row>)
    ensures |vintages| == |group|
  {
    SortContents(group, KnownNoLater);
    SortBy(group, KnownNoLater)
  }

  // ---------------------------------------------------------------- one interval

  /** The first vintage, closed as the last one is; a closure published too late is refused. */
  function MergeGroup(group: seq<Row>, closureField: Id): Result<Row, MergeError>
    requires group != []
  {
    if exists i :: 0 <= i < |group| && !Stamped(group[i]) then Failure(NoKnowledgeTime) else
    var vintages := Vintages(group);
    var base, final := vintages[0], vintages[|vintages| - 1];
    match Get(final, closureField)
    case Null => Success(base)
    case Text(_) => Failure(NonDateClosure)
    case Instant(_) => Failure(IncomparableClosure)
    case Day(end) =>
      if DayOf(KnowledgeOf(final)) > end + 1 then Failure(LateClosure) else Success(base[closureField := Day(end)])
  }

  // ---------------------------------------------------------------- all intervals

  predicate TextBefore(text: Cells -> Id, a: Cells, b: Cells) {
    IdLeq(text(a), text(b))
  }

  function ByText(text: Cells -> Id): (Cells, Cells) -> bool {
    (a, b) => TextBefore(text, a, b)
  }

  /** One merged row for each of the keys listed. */
  ghost predicate RowsOf(rows: seq<Row>, order: seq<Cells>, records: seq<Row>, key: Row -> Cells, closureField: Id) {
    && |rows| == |order|
    && forall i :: 0 <= i < |order| ==>
         Having(records, key, order[i]) != [] && MergeGroup(Having(records, key, order[i]), closureField) == Success(rows[i])
  }

  /** The keys of the records, each once, in the order of their text. */
  ghost predicate KeyOrder(order: seq<Cells>, records: seq<Row>, key: Row -> Cells, text: Cells -> Id) {
    && (forall k :: k in order <==> Having(records, key, k) != [])
    && (forall i, j :: 0 <= i < j < |order| ==> order[i] != order[j])
    && Sorted(order, ByText(text))
  }

  /** One merged row for every interval, in the order of the intervals' keys. */
  ghost predicate Merged(rows: seq<Row>, records: seq<Row>, key: Row -> Cells, closureField: Id, text: Cells -> Id) {
    exists order :: KeyOrder(order, records, key, text) && RowsOf(rows, order, records, key, closureField)
  }

  /** The interval k, of those refused the first in key order, is refused with the given error. */
  ghost predicate FirstRefusal(e: MergeError, k: Cells, records: seq<Row>, key: Row -> Cells, closureField: Id, text: Cells -> Id) {
    && Having(records, key, k) != [] && MergeGroup(Having(records, key, k), closureField) == Failure(e)
    && forall j :: Having(records, key, j) != [] && MergeGroup(Having(records, key, j), closureField).Failure? ==> TextBefore(text, k, j)
  }

  lemma SortedKeys(order: seq<Cells>, records: seq<Row>, key: Row -> Cells, text: Cells -> Id)
    requires forall k :: k in order <==> Having(records, key, k) != []
    requires forall i, j :: 0 <= i < j < |order| ==> order[i] != order[j]
    ensures KeyOrder(SortBy(order, ByText(text)), records, key, text)
  {
    hide SortBy, Having, IdLeq;
    var leq := ByText(text);
    IdOrderIsTotal();
    forall a, b ensures leq(a, b) || leq(b, a) {
      assert IdLeq(text(a), text(b)) || IdLeq(text(b), text(a));
    }
    forall a, b, c | leq(a, b) && leq(b, c) ensures leq(a, c) {
      assert IdLeq(text(a), text(b)) && IdLeq(text(b), text(c));
    }
    SortIsSorted(order, leq);
    SortContents(order, leq);
    DistinctFromMultiset(order, SortBy(order, leq));
  }

  method MergeIntervalVintages(records: seq<Row>, groupKey: seq<Id>, closureField: Id, text: Cells -> Id)
    returns (res: Result<seq<Row>, MergeError>)
    ensures res.Success? ==> Merged(res.value, records, Columns(groupKey), closureField, text)
    ensures res.Failure? ==> exists k :: FirstRefusal(res.error, k, records, Columns(groupKey), closureField, text)
  {
    hide MergeGroup, SortBy, Having, KeyOrder;
    var key := Columns(groupKey);
    var groups, met := GroupBy(records, key);
    SortedKeys(met, records, key, text);
    var order := SortBy(met, ByText(text));
    var merged: seq<Row> := [];
    for i := 0 to |order|
      invariant RowsOf(merged, order[..i], records, key, closureField)
    {
      assert order[i] in groups by { KeyIsGrouped(order, i, groups, records, key, text); }
      var row := MergeGroup(groups[order[i]], closureField);
      if row.Failure? {
        FirstToFail(merged, order, i, records, key, closureField, text);
        return Failure(row.error);
      }
      assert order[..i + 1] == order[..i] + [order[i]];
      merged := merged + [row.value];
    }
    assert order[..|order|] == order;
    return Success(merged);
  }

  lemma KeyIsGrouped(
      order: seq<Cells>, i: nat, groups: map<Cells, seq<Row>>, records: seq<Row>, key: Row -> Cells, text: Cells -> Id)
    requires i < |order| && KeyOrder(order, records, key, text) && Groups(groups, records, key)
    ensures order[i] in groups
  {
    hide Having;
    assert order[i] in order;
  }

  lemma FirstToFail(
      merged: seq<Row>, order: seq<Cells>, i: nat, records: seq<Row>, key: Row -> Cells, closureField: Id, text: Cells -> Id)
    requires i < |order| && KeyOrder(order, records, key, text) && Having(records, key, order[i]) != []
    requires RowsOf(merged, order[..i], records, key, closureField)
    requires MergeGroup(Having(records, key, order[i]), closureField).Failure?
    ensures FirstRefusal(MergeGroup(Having(records, key, order[i]), closureField).error, order[i], records, key, closureField, text)
  {
    hide MergeGroup, Having, IdLess;
    forall j | 0 <= j < i ensures MergeGroup(Having(records, key, order[j]), closureField).Success? {
      assert order[..i][j] == order[j];
    }
    forall k | Having(records, key, k) != [] && MergeGroup(Having(records, key, k), closureField).Failure?
      ensures TextBefore(text, order[i], k)
    {
      assert k in order;
      var j :| 0 <= j < |order| && order[j] == k;
      if j > i {
        assert ByText(text)(order[i], order[j]);
      }
    }
  }

  // ---------------------------------------------------------------- what was known, and when

  /** The latest vintage known by the end of a day. */
  function LatestKnown(vintages: seq<Row>, day: int): Option<Row> {
    if vintages == [] then None else
    var last := vintages[|vintages| - 1];
    if DayOf(KnowledgeOf(last)) <= day then Some(last) else LatestKnown(vintages[..|vintages| - 1], day)
  }

  /** DateInterval.contains */
  predicate Contains(row: Row, startField: Id, closureField: Id, day: int) {
    var start := Get(row, startField);
    start.Day? && start.day <= day && Within(Get(row, closureField), day)
  }

  /** The day is not after the end, an end of null being open. */
  predicate Within(end: Cell, day: int) {
    end.Null? || (end.Day? && day <= end.day)
  }

  /** Whether the interval, as known by the end of a day, contains that day. */
  predicate KnownToContain(vintages: seq<Row>, startField: Id, closureField: Id, day: int) {
    match LatestKnown(vintages, day)
    case None => false
    case Some(row) => Contains(row, startField, closureField, day)
  }

  ghost predicate SameAnswers(a: seq<Row>, b: seq<Row>, startField: Id, closureField: Id) {
    forall day :: KnownToContain(a, startField, closureField, day) == KnownToContain(b, startField, closureField, day)
  }

  /** The documented emission: open vintages, the last of which may be superseded by one that closes the interval. */
  predicate OpenThenClosed(vintages: seq<Row>, startField: Id, closureField: Id, start: int) {
    && vintages != []
    && (forall i :: 0 <= i < |vintages| ==> Stamped(vintages[i]) && Get(vintages[i], startField) == Day(start))
    && (forall i :: 0 <= i < |vintages| - 1 ==> Get(vintages[i], closureField) == Null)
    && (Get(vintages[|vintages| - 1], closureField).Null? || Get(vintages[|vintages| - 1], closureField).Day?)
  }

  /** The first vintage closed as the last one is, whether or not that would be accepted. */
  function Collapsed(vintages: seq<Row>, closureField: Id): Row
    requires vintages != []
  {
    var end := Get(vintages[|vintages| - 1], closureField);
    if end.Null? then vintages[0] else vintages[0][closureField := end]
  }

  /** Before the closure is published, an open interval contains every day from its start on. */
  lemma {:induction false} OpenUntilPublished(vintages: seq<Row>, startField: Id, closureField: Id, start: int, day: int)
    requires Sorted(vintages, KnownNoLater) && vintages != []
    requires forall i :: 0 <= i < |vintages| ==> Get(vintages[i], startField) == Day(start) && Get(vintages[i], closureField) == Null
    ensures KnownToContain(vintages, startField, closureField, day)
            <==> DayOf(KnowledgeOf(vintages[0])) <= day && start <= day
    decreases |vintages|
  {
    var n := |vintages| - 1;
    if n > 0 {
      OpenUntilPublished(vintages[..n], startField, closureField, start, day);
      assert KnownNoLater(vintages[0], vintages[n]);
      DaysFollowInstants(KnowledgeOf(vintages[0]), KnowledgeOf(vintages[n]));
    } else {
      assert vintages == [vintages[0]];
      LatestOfOne(vintages[0], day);
    }
  }

  lemma LatestOfOne(row: Row, day: int)
    ensures LatestKnown([row], day) == if DayOf(KnowledgeOf(row)) <= day then Some(row) else None
  {
    assert [row][..0] == [];
    assert LatestKnown([], day) == None;
  }

  lemma DaysFollowInstants(a: int, b: int)
    requires a <= b
    ensures DayOf(a) <= DayOf(b)
  {
  }

  /** What the collapsed row, and what the vintages, answer for a day. */
  lemma AnswersForDay(vintages: seq<Row>, startField: Id, closureField: Id, start: int, day: int)
    requires Sorted(vintages, KnownNoLater) && OpenThenClosed(vintages, startField, closureField, start)
    requires closureField != KNOWLEDGE_TIME && closureField != startField
    ensures var known := DayOf(KnowledgeOf(vintages[0])) <= day && start <= day;
            var end, published := Get(vintages[|vintages| - 1], closureField), DayOf(KnowledgeOf(vintages[|vintages| - 1]));
            && (KnownToContain([Collapsed(vintages, closureField)], startField, closureField, day)
                <==> known && (end.Day? ==> day <= end.day))
            && (KnownToContain(vintages, startField, closureField, day)
                <==> known && (end.Day? && published <= day ==> day <= end.day))
  {
    hide DayOf;
    var n := |vintages| - 1;
    CollapsedFacts(vintages, startField, closureField, start, day);
    DaysFollowSorted(vintages);
    if Get(vintages[n], closureField).Null? {
      OpenUntilPublished(vintages, startField, closureField, start, day);
    } else if n > 0 {
      OpenUntilPublished(vintages[..n], startField, closureField, start, day);
    } else {
      assert vintages[..n] == [];
    }
  }

  lemma DaysFollowSorted(vintages: seq<Row>)
    requires Sorted(vintages, KnownNoLater) && vintages != []
    ensures DayOf(KnowledgeOf(vintages[0])) <= DayOf(KnowledgeOf(vintages[|vintages| - 1]))
  {
    assert |vintages| > 1 ==> KnownNoLater(vintages[0], vintages[|vintages| - 1]);
  }

  lemma CollapsedFacts(vintages: seq<Row>, startField: Id, closureField: Id, start: int, day: int)
    requires OpenThenClosed(vintages, startField, closureField, start)
    requires closureField != KNOWLEDGE_TIME && closureField != startField
    ensures KnownToContain([Collapsed(vintages, closureField)], startField, closureField, day)
            <==> DayOf(KnowledgeOf(vintages[0])) <= day && start <= day
                 && (Get(vintages[|vintages| - 1], closureField).Day? ==> day <= Get(vintages[|vintages| - 1], closureField).day)
  {
    hide DayOf;
    var row := Collapsed(vintages, closureField);
    LatestOfOne(row, day);
    assert Get(row, KNOWLEDGE_TIME) == Get(vintages[0], KNOWLEDGE_TIME);
    assert Get(row, startField) == Get(vintages[0], startField);
  }

  // ---------------------------------------------------------------- no look-ahead

  function Latest(a: int, b: int, c: int): int {
    if a >= b && a >= c then a else if b >= c then b else c
  }

  /**
   * Collapsing changes no answer exactly when the closure is published by the day after the
   * interval's end, or before there is any day to ask about.
   */
  lemma CollapseIsSoundIff(vintages: seq<Row>, startField: Id, closureField: Id, start: int)
    requires Sorted(vintages, KnownNoLater) && OpenThenClosed(vintages, startField, closureField, start)
    requires closureField != KNOWLEDGE_TIME && closureField != startField
    ensures SameAnswers([Collapsed(vintages, closureField)], vintages, startField, closureField)
            <==> (Get(vintages[|vintages| - 1], closureField).Day?
                  ==> DayOf(KnowledgeOf(vintages[|vintages| - 1]))
                      <= Latest(Get(vintages[|vintages| - 1], closureField).day + 1, DayOf(KnowledgeOf(vintages[0])), start))
  {
    var end := Get(vintages[|vintages| - 1], closureField);
    hide DayOf, KnownToContain, OpenThenClosed, Sorted, Collapsed;
    forall day { AnswersForDay(vintages, startField, closureField, start, day); }
    if end.Day? {
      var day := Latest(end.day + 1, DayOf(KnowledgeOf(vintages[0])), start);
      AnswersForDay(vintages, startField, closureField, start, day);
    }
  }

  /** A merge the code accepts answers, for every day, as the latest vintage known by the end of that day would. */
  lemma MergeAddsNoLookAhead(group: seq<Row>, startField: Id, closureField: Id, start: int)
    requires group != [] && OpenThenClosed(Vintages(group), startField, closureField, start)
    requires closureField != KNOWLEDGE_TIME && closureField != startField
    requires MergeGroup(group, closureField).Success?
    ensures SameAnswers([MergeGroup(group, closureField).value], Vintages(group), startField, closureField)
  {
    hide SortBy, DayOf, SameAnswers, Latest;
    LatestBounds();
    VintagesSorted(group);
    CollapseIsSoundIff(Vintages(group), startField, closureField, start);
  }

  lemma LatestBounds()
    ensures forall a, b, c :: Latest(a, b, c) >= a && Latest(a, b, c) >= b && Latest(a, b, c) >= c
  {
  }

  lemma VintagesSorted(group: seq<Row>)
    ensures Sorted(Vintages(group), KnownNoLater)
    ensures multiset(Vintages(group)) == multiset(group)
  {
    SortIsSorted(group, KnownNoLater);
    SortContents(group, KnownNoLater);
  }

  /**
   * The one-day slack is the largest that is safe: where the interval starts, and is first known,
   * by the day after its end, the code refuses exactly the merges that would change an answer.
   */
  lemma SlackIsTight(group: seq<Row>, startField: Id, closureField: Id, start: int)
    requires group != [] && OpenThenClosed(Vintages(group), startField, closureField, start)
    requires closureField != KNOWLEDGE_TIME && closureField != startField
    requires var vintages := Vintages(group);
             var end := Get(vintages[|vintages| - 1], closureField);
             end.Day? ==> start <= end.day + 1 && DayOf(KnowledgeOf(vintages[0])) <= end.day + 1
    ensures MergeGroup(group, closureField).Success?
            <==> SameAnswers([Collapsed(Vintages(group), closureField)], Vintages(group), startField, closureField)
  {
    hide SortBy, DayOf, SameAnswers;
    VintagesSorted(group);
    CollapseIsSoundIff(Vintages(group), startField, closureField, start);
    forall i | 0 <= i < |group| ensures Stamped(group[i]) {
      assert group[i] in multiset(Vintages(group));
    }
  }

  /** Every merged row of a payload answers as the vintages of its interval do. */
  lemma MergedPayloadAddsNoLookAhead(
      rows: seq<Row>, records: seq<Row>, groupKey: seq<Id>, startField: Id, closureField: Id, text: Cells -> Id, i: nat)
    returns (k: Cells)
    requires Merged(rows, records, Columns(groupKey), closureField, text) && i < |rows|
    requires closureField != KNOWLEDGE_TIME && closureField != startField
    requires forall j :: Having(records, Columns(groupKey), j) != [] ==>
               exists start :: OpenThenClosed(Vintages(Having(records, Columns(groupKey), j)), startField, closureField, start)
    ensures Having(records, Columns(groupKey), k) != []
    ensures SameAnswers([rows[i]], Vintages(Having(records, Columns(groupKey), k)), startField, closureField)
  {
    hide Having, SortBy, SameAnswers, OpenThenClosed, MergeGroup, KeyOrder;
    var key := Columns(groupKey);
    var order :| KeyOrder(order, records, key, text) && RowsOf(rows, order, records, key, closureField);
    k := order[i];
    var start :| OpenThenClosed(Vintages(Having(records, key, k)), startField, closureField, start);
    MergeAddsNoLookAhead(Having(records, key, k), startField, closureField, start);
  }

  // ---------------------------------------------------------------- any emission

  function KnownDay(row: Row): int {
    DayOf(KnowledgeOf(row))
  }

  /** The vintages of one interval: all stamped, all with the same start; nothing is said of their ends. */
  predicate OneInterval(vintages: seq<Row>, startField: Id, start: int) {
    && vintages != []
    && forall i :: 0 <= i < |vintages| ==> Stamped(vintages[i]) && Get(vintages[i], startField) == Day(start)
  }

  lemma {:induction false} DaysAscend(vintages: seq<Row>, i: nat, j: nat)
    requires Sorted(vintages, KnownNoLater) && i <= j < |vintages|
    ensures KnownDay(vintages[i]) <= KnownDay(vintages[j])
  {
    if i < j {
      assert KnownNoLater(vintages[i], vintages[j]);
      DaysFollowInstants(KnowledgeOf(vintages[i]), KnowledgeOf(vintages[j]));
    }
  }

  /** Vintage i is the latest known on the days from its own publication to the next one's. */
  lemma {:induction false} LatestIs(vintages: seq<Row>, day: int, i: nat)
    requires Sorted(vintages, KnownNoLater) && i < |vintages| && KnownDay(vintages[i]) <= day
    requires i + 1 < |vintages| ==> day < KnownDay(vintages[i + 1])
    ensures LatestKnown(vintages, day) == Some(vintages[i])
    decreases |vintages|
  {
    hide DayOf;
    var n := |vintages| - 1;
    if i < n {
      DaysAscend(vintages, i + 1, n);
      LatestIs(vintages[..n], day, i);
    }
  }

  lemma {:induction false} NoneKnown(vintages: seq<Row>, day: int)
    requires Sorted(vintages, KnownNoLater) && vintages != [] && day < KnownDay(vintages[0])
    ensures LatestKnown(vintages, day) == None
    decreases |vintages|
  {
    hide DayOf;
    var n := |vintages| - 1;
    DaysAscend(vintages, 0, n);
    if n > 0 {
      NoneKnown(vintages[..n], day);
    } else {
      assert vintages[..n] == [];
    }
  }

  lemma {:induction false} SomeIsLatest(vintages: seq<Row>, day: int, n: nat) returns (i: nat)
    requires n < |vintages| && KnownDay(vintages[0]) <= day
    requires n + 1 < |vintages| ==> day < KnownDay(vintages[n + 1])
    ensures i < |vintages| && KnownDay(vintages[i]) <= day
    ensures i + 1 < |vintages| ==> day < KnownDay(vintages[i + 1])
  {
    i := n;
    if KnownDay(vintages[n]) > day {
      i := SomeIsLatest(vintages, day, n - 1);
    }
  }

  /** The end of the collapsed row. */
  function MergedEnd(vintages: seq<Row>, closureField: Id): Cell
    requires vintages != []
  {
    var end := Get(vintages[|vintages| - 1], closureField);
    if end.Null? then Get(vintages[0], closureField) else end
  }

  lemma MergedAnswer(vintages: seq<Row>, startField: Id, closureField: Id, start: int, day: int)
    requires OneInterval(vintages, startField, start)
    requires closureField != KNOWLEDGE_TIME && closureField != startField
    ensures KnownToContain([Collapsed(vintages, closureField)], startField, closureField, day)
            <==> KnownDay(vintages[0]) <= day && start <= day && Within(MergedEnd(vintages, closureField), day)
  {
    hide DayOf;
    var row := Collapsed(vintages, closureField);
    LatestOfOne(row, day);
    assert Get(row, KNOWLEDGE_TIME) == Get(vintages[0], KNOWLEDGE_TIME);
    assert Get(row, startField) == Get(vintages[0], startField);
    assert Get(row, closureField) == MergedEnd(vintages, closureField);
  }

  lemma VintageAnswer(vintages: seq<Row>, startField: Id, closureField: Id, start: int, day: int, i: nat)
    requires OneInterval(vintages, startField, start) && Sorted(vintages, KnownNoLater)
    requires i < |vintages| && KnownDay(vintages[i]) <= day && (i + 1 < |vintages| ==> day < KnownDay(vintages[i + 1]))
    ensures KnownToContain(vintages, startField, closureField, day)
            <==> start <= day && Within(Get(vintages[i], closureField), day)
  {
    hide DayOf, LatestKnown;
    LatestIs(vintages, day, i);
  }

  /** The last day of lo, ..., hi - 1 that is not after the end, or the day before lo when there is none. */
  function LastDayIn(end: Cell, lo: int, hi: int): int {
    match end
    case Null => hi - 1
    case Day(day) => if day < lo then lo - 1 else if day < hi then day else hi - 1
    case _ => lo - 1
  }

  lemma SameWithin(a: Cell, b: Cell, lo: int, hi: int)
    requires lo < hi
    ensures (forall day :: lo <= day < hi ==> Within(a, day) == Within(b, day)) <==> LastDayIn(a, lo, hi) == LastDayIn(b, lo, hi)
  {
    forall day | lo <= day < hi
      ensures (Within(a, day) <==> day <= LastDayIn(a, lo, hi)) && (Within(b, day) <==> day <= LastDayIn(b, lo, hi))
    {
    }
    var day := if LastDayIn(a, lo, hi) < LastDayIn(b, lo, hi) then LastDayIn(b, lo, hi) else LastDayIn(a, lo, hi);
    if LastDayIn(a, lo, hi) != LastDayIn(b, lo, hi) {
      assert Within(a, day) != Within(b, day);
    }
  }

  /** On the days on which vintage i is the latest known, its end and the merged one leave the same days in the interval. */
  predicate Harmless(vintages: seq<Row>, i: nat, closureField: Id, start: int)
    requires i + 1 < |vintages|
  {
    var known := KnownDay(vintages[i]);
    var lo, hi := if known < start then start else known, KnownDay(vintages[i + 1]);
    lo < hi ==> LastDayIn(Get(vintages[i], closureField), lo, hi) == LastDayIn(MergedEnd(vintages, closureField), lo, hi)
  }

  /** A closure that the last vintage withdraws was not there to begin with, and every superseded end is harmless. */
  predicate CollapseHarmless(vintages: seq<Row>, closureField: Id, start: int)
    requires vintages != []
  {
    && (Get(vintages[|vintages| - 1], closureField).Null? ==> Get(vintages[0], closureField).Null?)
    && forall i :: 0 <= i < |vintages| - 1 ==> Harmless(vintages, i, closureField, start)
  }

  /** While vintage i is the latest known, the two answers agree exactly when it is harmless. */
  lemma HarmlessIff(vintages: seq<Row>, startField: Id, closureField: Id, start: int, i: nat)
    requires OneInterval(vintages, startField, start) && Sorted(vintages, KnownNoLater) && i + 1 < |vintages|
    requires closureField != KNOWLEDGE_TIME && closureField != startField
    ensures Harmless(vintages, i, closureField, start)
       <==> forall day :: start <= day && KnownDay(vintages[i]) <= day < KnownDay(vintages[i + 1]) ==>
              KnownToContain([Collapsed(vintages, closureField)], startField, closureField, day)
              == KnownToContain(vintages, startField, closureField, day)
  {
    hide KnownDay, KnownToContain, Collapsed, LastDayIn, Within, Sorted;
    var known := KnownDay(vintages[i]);
    var lo, hi := if known < start then start else known, KnownDay(vintages[i + 1]);
    if lo < hi {
      SameWithin(Get(vintages[i], closureField), MergedEnd(vintages, closureField), lo, hi);
    }
    DaysAscend(vintages, 0, i);
    hide MergedEnd;
    forall day | start <= day && known <= day < hi
      ensures KnownToContain([Collapsed(vintages, closureField)], startField, closureField, day)
              <==> Within(MergedEnd(vintages, closureField), day)
      ensures KnownToContain(vintages, startField, closureField, day) <==> Within(Get(vintages[i], closureField), day)
    {
      MergedAnswer(vintages, startField, closureField, start, day);
      VintageAnswer(vintages, startField, closureField, start, day, i);
    }
  }

  /** From the last publication on. */
  lemma LastIff(vintages: seq<Row>, startField: Id, closureField: Id, start: int)
    requires OneInterval(vintages, startField, start) && Sorted(vintages, KnownNoLater)
    requires closureField != KNOWLEDGE_TIME && closureField != startField
    ensures (Get(vintages[|vintages| - 1], closureField).Null? ==> Get(vintages[0], closureField).Null?)
       <==> forall day :: start <= day && KnownDay(vintages[|vintages| - 1]) <= day ==>
              KnownToContain([Collapsed(vintages, closureField)], startField, closureField, day)
              == KnownToContain(vintages, startField, closureField, day)
  {
    hide KnownDay, KnownToContain, Collapsed, Sorted;
    var n := |vintages| - 1;
    var last, first := Get(vintages[n], closureField), Get(vintages[0], closureField);
    DaysAscend(vintages, 0, n);
    forall day | start <= day && KnownDay(vintages[n]) <= day
      ensures KnownToContain([Collapsed(vintages, closureField)], startField, closureField, day)
              <==> Within(MergedEnd(vintages, closureField), day)
      ensures KnownToContain(vintages, startField, closureField, day) <==> Within(last, day)
    {
      MergedAnswer(vintages, startField, closureField, start, day);
      VintageAnswer(vintages, startField, closureField, start, day, n);
    }
    if last.Null? && !first.Null? {
      var day := Latest(if first.Day? then first.day + 1 else start, start, KnownDay(vintages[n]));
      assert start <= day && KnownDay(vintages[n]) <= day;
      assert !Within(MergedEnd(vintages, closureField), day) && Within(last, day);
    }
  }

  /**
   * Collapsing the vintages of any interval changes no answer exactly when every end they give is
   * harmless while it is the latest known, and a closure is not withdrawn.
   */
  lemma CollapseChangesNothingIff(vintages: seq<Row>, startField: Id, closureField: Id, start: int)
    requires OneInterval(vintages, startField, start) && Sorted(vintages, KnownNoLater)
    requires closureField != KNOWLEDGE_TIME && closureField != startField
    ensures SameAnswers([Collapsed(vintages, closureField)], vintages, startField, closureField)
       <==> CollapseHarmless(vintages, closureField, start)
  {
    hide KnownDay, KnownToContain, Collapsed, Harmless, Sorted;
    LastIff(vintages, startField, closureField, start);
    forall i | 0 <= i < |vintages| - 1
      ensures Harmless(vintages, i, closureField, start)
         <==> forall day :: start <= day && KnownDay(vintages[i]) <= day < KnownDay(vintages[i + 1]) ==>
                KnownToContain([Collapsed(vintages, closureField)], startField, closureField, day)
                == KnownToContain(vintages, startField, closureField, day)
    {
      HarmlessIff(vintages, startField, closureField, start, i);
    }
    if CollapseHarmless(vintages, closureField, start) {
      forall day
        ensures KnownToContain([Collapsed(vintages, closureField)], startField, closureField, day)
                == KnownToContain(vintages, startField, closureField, day)
      {
        AnswersAgree(vintages, startField, closureField, start, day);
      }
    }
  }

  /** One day: before the start, before anything is known, or while some vintage is the latest known. */
  lemma AnswersAgree(vintages: seq<Row>, startField: Id, closureField: Id, start: int, day: int)
    requires OneInterval(vintages, startField, start) && Sorted(vintages, KnownNoLater)
    requires closureField != KNOWLEDGE_TIME && closureField != startField
    requires CollapseHarmless(vintages, closureField, start)
    ensures KnownToContain([Collapsed(vintages, closureField)], startField, closureField, day)
            == KnownToContain(vintages, startField, closureField, day)
  {
    hide KnownDay, Collapsed, Harmless, Sorted, LatestKnown;
    MergedAnswer(vintages, startField, closureField, start, day);
    if day < KnownDay(vintages[0]) {
      NoneKnown(vintages, day);
    } else {
      var i := SomeIsLatest(vintages, day, |vintages| - 1);
      VintageAnswer(vintages, startField, closureField, start, day, i);
      if start <= day {
        if i + 1 < |vintages| {
          HarmlessIff(vintages, startField, closureField, start, i);
        } else {
          LastIff(vintages, startField, closureField, start);
        }
      }
    }
  }

  /** An accepted merge is the collapsed row. */
  lemma AcceptedIsCollapsed(group: seq<Row>, closureField: Id)
    requires group != [] && MergeGroup(group, closureField).Success?
    ensures MergeGroup(group, closureField).value == Collapsed(Vintages(group), closureField)
  {
    hide SortBy;
  }

  /** Exactly when a merge the code accepts answers every day as the latest vintage known would, for any interval. */
  lemma AcceptedMergeIsSoundIff(group: seq<Row>, startField: Id, closureField: Id, start: int)
    requires group != [] && OneInterval(Vintages(group), startField, start)
    requires closureField != KNOWLEDGE_TIME && closureField != startField
    requires MergeGroup(group, closureField).Success?
    ensures SameAnswers([MergeGroup(group, closureField).value], Vintages(group), startField, closureField)
       <==> CollapseHarmless(Vintages(group), closureField, start)
  {
    hide SortBy, SameAnswers, CollapseHarmless;
    AcceptedIsCollapsed(group, closureField);
    VintagesSorted(group);
    CollapseChangesNothingIff(Vintages(group), startField, closureField, start);
  }

  /** The day an interval starts, by its first vintage. */
  function StartOf(vintages: seq<Row>, startField: Id): int {
    if vintages != [] && Get(vintages[0], startField).Day? then Get(vintages[0], startField).day else 0
  }

  /** The records of key k, where there are any, are one interval's. */
  predicate IntervalOf(records: seq<Row>, groupKey: seq<Id>, startField: Id, k: Cells) {
    var vintages := Vintages(Having(records, Columns(groupKey), k));
    vintages != [] ==> OneInterval(vintages, startField, StartOf(vintages, startField))
  }

  predicate HarmlessFor(records: seq<Row>, groupKey: seq<Id>, startField: Id, closureField: Id, k: Cells) {
    var vintages := Vintages(Having(records, Columns(groupKey), k));
    vintages != [] ==> CollapseHarmless(vintages, closureField, StartOf(vintages, startField))
  }

  /** Exactly when every row of an accepted payload, in its key order, answers as its interval's vintages do. */
  lemma MergedPayloadIsSoundIff(
      rows: seq<Row>, records: seq<Row>, groupKey: seq<Id>, startField: Id, closureField: Id, text: Cells -> Id)
    returns (order: seq<Cells>)
    requires Merged(rows, records, Columns(groupKey), closureField, text)
    requires closureField != KNOWLEDGE_TIME && closureField != startField
    requires forall k :: IntervalOf(records, groupKey, startField, k)
    ensures KeyOrder(order, records, Columns(groupKey), text) && |order| == |rows|
    ensures (forall i :: 0 <= i < |rows| ==> AnswersFor(rows[i], records, groupKey, startField, closureField, order[i]))
       <==> forall k :: HarmlessFor(records, groupKey, startField, closureField, k)
  {
    hide AnswersFor, HarmlessFor, IntervalOf, KeyOrder, RowsOf, Columns;
    var key := Columns(groupKey);
    order :| KeyOrder(order, records, key, text) && RowsOf(rows, order, records, key, closureField);
    RowsMatchOrder(rows, order, records, key, closureField);
    forall i | 0 <= i < |rows|
      ensures AnswersFor(rows[i], records, groupKey, startField, closureField, order[i])
         <==> HarmlessFor(records, groupKey, startField, closureField, order[i])
    {
      RowAt(rows, order, records, key, closureField, i);
      MergedRowIsSoundIff(rows[i], records, groupKey, startField, closureField, order[i]);
    }
    forall k | k !in order ensures HarmlessFor(records, groupKey, startField, closureField, k) {
      NotInOrder(order, records, key, text, k);
      NoRecordsNoHarm(records, groupKey, startField, closureField, k);
    }
  }

  lemma RowsMatchOrder(rows: seq<Row>, order: seq<Cells>, records: seq<Row>, key: Row -> Cells, closureField: Id)
    requires RowsOf(rows, order, records, key, closureField)
    ensures |rows| == |order|
  {
  }

  lemma RowAt(rows: seq<Row>, order: seq<Cells>, records: seq<Row>, key: Row -> Cells, closureField: Id, i: nat)
    requires RowsOf(rows, order, records, key, closureField) && i < |order|
    ensures |rows| == |order| && Having(records, key, order[i]) != []
    ensures MergeGroup(Having(records, key, order[i]), closureField) == Success(rows[i])
  {
    hide Having, MergeGroup;
  }

  lemma NotInOrder(order: seq<Cells>, records: seq<Row>, key: Row -> Cells, text: Cells -> Id, k: Cells)
    requires KeyOrder(order, records, key, text) && k !in order
    ensures Having(records, key, k) == []
  {
    hide Having, Sorted;
  }

  /** A row answers as the vintages of key k. */
  ghost predicate AnswersFor(row: Row, records: seq<Row>, groupKey: seq<Id>, startField: Id, closureField: Id, k: Cells) {
    SameAnswers([row], Vintages(Having(records, Columns(groupKey), k)), startField, closureField)
  }

  lemma MergedRowIsSoundIff(row: Row, records: seq<Row>, groupKey: seq<Id>, startField: Id, closureField: Id, k: Cells)
    requires var group := Having(records, Columns(groupKey), k); group != [] && MergeGroup(group, closureField) == Success(row)
    requires closureField != KNOWLEDGE_TIME && closureField != startField && IntervalOf(records, groupKey, startField, k)
    ensures AnswersFor(row, records, groupKey, startField, closureField, k)
       <==> HarmlessFor(records, groupKey, startField, closureField, k)
  {
    hide Having, SortBy, SameAnswers, OneInterval, CollapseHarmless, MergeGroup, StartOf;
    var group := Having(records, Columns(groupKey), k);
    AcceptedMergeIsSoundIff(group, startField, closureField, StartOf(Vintages(group), startField));
  }

  lemma NoRecordsNoHarm(records: seq<Row>, groupKey: seq<Id>, startField: Id, closureField: Id, k: Cells)
    requires Having(records, Columns(groupKey), k) == []
    ensures HarmlessFor(records, groupKey, startField, closureField, k)
  {
    hide Having, SortBy;
  }

  /** An interval closed and later reopened keeps its first closure, so an accepted merge forgets the reopening. */
  lemma ReopeningIsForgotten(group: seq<Row>, startField: Id, closureField: Id, start: int)
    requires group != [] && OneInterval(Vintages(group), startField, start)
    requires closureField != KNOWLEDGE_TIME && closureField != startField
    requires !Get(Vintages(group)[0], closureField).Null?
    requires Get(Vintages(group)[|group| - 1], closureField).Null?
    ensures MergeGroup(group, closureField).Success?
    ensures !SameAnswers([MergeGroup(group, closureField).value], Vintages(group), startField, closureField)
  {
    hide SortBy, SameAnswers, Harmless;
    VintagesSorted(group);
    forall i | 0 <= i < |group| ensures Stamped(group[i]) {
      assert group[i] in multiset(Vintages(group));
    }
    AcceptedMergeIsSoundIff(group, startField, closureField, start);
  }

  /**
   * Of the intervals whose last vintage is open, the merge is right for exactly those that were
   * open to begin with and whose closures were superseded before they took effect.
   */
  lemma OpenAtLastIsSoundIff(group: seq<Row>, startField: Id, closureField: Id, start: int)
    requires group != [] && OneInterval(Vintages(group), startField, start)
    requires closureField != KNOWLEDGE_TIME && closureField != startField
    requires Get(Vintages(group)[|group| - 1], closureField).Null?
    requires forall i :: 0 <= i < |group| ==>
               Get(Vintages(group)[i], closureField).Null? || Get(Vintages(group)[i], closureField).Day?
    ensures MergeGroup(group, closureField).Success?
    ensures SameAnswers([MergeGroup(group, closureField).value], Vintages(group), startField, closureField)
       <==> Get(Vintages(group)[0], closureField).Null?
            && forall i :: 0 <= i < |group| - 1 && Get(Vintages(group)[i], closureField).Day? ==>
                 KnownDay(Vintages(group)[i + 1])
                 <= Latest(Get(Vintages(group)[i], closureField).day + 1, KnownDay(Vintages(group)[i]), start)
  {
    hide SortBy, SameAnswers, KnownDay;
    VintagesSorted(group);
    forall i | 0 <= i < |group| ensures Stamped(group[i]) {
      assert group[i] in multiset(Vintages(group));
    }
    AcceptedMergeIsSoundIff(group, startField, closureField, start);
    var vintages := Vintages(group);
    if Get(vintages[0], closureField).Null? {
      forall i | 0 <= i < |group| - 1
        ensures Harmless(vintages, i, closureField, start)
           <==> (Get(vintages[i], closureField).Day? ==>
                   KnownDay(vintages[i + 1]) <= Latest(Get(vintages[i], closureField).day + 1, KnownDay(vintages[i]), start))
      {
        SupersededInTime(vintages, i, closureField, start);
      }
    }
  }

  lemma SupersededInTime(vintages: seq<Row>, i: nat, closureField: Id, start: int)
    requires i + 1 < |vintages| && MergedEnd(vintages, closureField) == Null
    requires Get(vintages[i], closureField).Null? || Get(vintages[i], closureField).Day?
    ensures Harmless(vintages, i, closureField, start)
       <==> (Get(vintages[i], closureField).Day? ==>
               KnownDay(vintages[i + 1]) <= Latest(Get(vintages[i], closureField).day + 1, KnownDay(vintages[i]), start))
  {
    hide KnownDay;
  }

  /** Such an interval: closed on day 5, reopened a microsecond later, and merged into a row that ends on day 5. */
  lemma ReopenedExample() returns (group: seq<Row>)
    ensures |group| == 2 && MergeGroup(group, "end").Success?
    ensures KnownToContain(Vintages(group), "start", "end", 6)
    ensures !KnownToContain([MergeGroup(group, "end").value], "start", "end", 6)
  {
    var closed: Row := map[KNOWLEDGE_TIME := Instant(0), "start" := Day(0), "end" := Day(5)];
    var reopened: Row := map[KNOWLEDGE_TIME := Instant(1), "start" := Day(0), "end" := Null];
    group := [closed, reopened];
    assert [closed, reopened][1..] == [reopened];
    assert SortBy([reopened], KnownNoLater) == [reopened];
    assert Vintages(group) == [closed, reopened];
    assert [closed][..0] == [];
  }
}

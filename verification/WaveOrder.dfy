/** Exactly when the ingestion waves of a payload do not depend on the order of its records. */
module WaveOrder {
  import opened DataStage
  import opened DataStageTheorems
  import opened Grouping
  import opened Ordering

  /** The text of a key tells it from the other keys of the payload. */
  ghost predicate KeyTextsTell(records: seq<Row>, primaryKey: seq<Id>, show: Rendering) {
    forall x, y :: x in records && y in records && Texts(x, primaryKey, show) == Texts(y, primaryKey, show) ==>
      Pick(x, primaryKey) == Pick(y, primaryKey)
  }

  /** Every order of the payload gives the same waves. */
  ghost predicate OrderIrrelevant(wa: seq<seq<Row>>, a: seq<Row>, primaryKey: seq<Id>, sortKey: seq<Id>, show: Rendering) {
    forall b, wb :: multiset(b) == multiset(a) && Ingested(wb, b, primaryKey, sortKey, show) ==> wb == wa
  }

  /** The waves of any order of a payload exist, as many as those of the payload. */
  lemma WavesExist(
      wa: seq<seq<Row>>, a: seq<Row>, b: seq<Row>, primaryKey: seq<Id>, sortKey: seq<Id>, show: Rendering)
    returns (wb: seq<seq<Row>>)
    requires Ingested(wa, a, primaryKey, sortKey, show) && multiset(a) == multiset(b)
    ensures Ingested(wb, b, primaryKey, sortKey, show)
  {
    hide Having, SortBy, WaveOf;
    var key := Columns(primaryKey);
    var arrived := Arrived(b, primaryKey, show);
    WaveCount(wa, a, primaryKey, sortKey, show);
    SortContents(b, Arrival(primaryKey, show));
    forall k ensures |Having(arrived, key, k)| == |Having(a, key, k)| {
      HavingPermutes(arrived, a, key, k);
    }
    wb := seq(|wa|, i requires 0 <= i < |wa| => SortBy(WaveOf(arrived, key, i), TableOrder(sortKey, show)));
  }

  lemma SwapKeepsContents<T>(a: seq<T>, i: nat, j: nat)
    requires i < j < |a|
    ensures multiset(a[i := a[j]][j := a[i]]) == multiset(a)
  {
  }

  // ---------------------------------------------------------------- which ties matter

  /** Two records come to stand in one wave: they are the equally many-th of their keys. */
  ghost predicate ShareWave(a: seq<Row>, x: Row, y: Row, primaryKey: seq<Id>, show: Rendering) {
    exists i: nat :: InWave(a, x, i, primaryKey, show) && InWave(a, y, i, primaryKey, show)
  }

  ghost predicate InWave(a: seq<Row>, x: Row, i: nat, primaryKey: seq<Id>, show: Rendering) {
    x in WaveOf(Arrived(a, primaryKey, show), Columns(primaryKey), i)
  }

  /** Two different records that arrive together have different keys, and the table tells them apart in any wave they share. */
  ghost predicate TiesAreHarmless(a: seq<Row>, primaryKey: seq<Id>, sortKey: seq<Id>, show: Rendering) {
    forall x, y :: x in a && y in a && x != y && ArrivalText(x, primaryKey, show) == ArrivalText(y, primaryKey, show) ==>
      && Pick(x, primaryKey) != Pick(y, primaryKey)
      && (ShareWave(a, x, y, primaryKey, show) ==> Texts(x, sortKey, show) != Texts(y, sortKey, show))
  }

  lemma ArrivalTies(x: Row, y: Row, primaryKey: seq<Id>, show: Rendering)
    ensures Arrival(primaryKey, show)(x, y) && Arrival(primaryKey, show)(y, x)
       <==> ArrivalText(x, primaryKey, show) == ArrivalText(y, primaryKey, show)
  {
    hide TextsLeq, ArrivalText;
    TextsTotal(ArrivalText(x, primaryKey, show), ArrivalText(y, primaryKey, show));
  }

  lemma TableTies(x: Row, y: Row, sortKey: seq<Id>, show: Rendering)
    ensures TableOrder(sortKey, show)(x, y) && TableOrder(sortKey, show)(y, x) <==> Texts(x, sortKey, show) == Texts(y, sortKey, show)
  {
    hide TextsLeq, Texts;
    TextsTotal(Texts(x, sortKey, show), Texts(y, sortKey, show));
  }

  lemma {:induction false} WaveStaysSorted<R(!new), K>(s: seq<R>, key: R -> K, i: nat, leq: (R, R) -> bool)
    requires Sorted(s, leq)
    ensures Sorted(WaveOf(s, key, i), leq)
    ensures forall x :: x in WaveOf(s, key, i) ==> x in s
    decreases |s|
  {
    if s != [] {
      hide Having;
      var n := |s| - 1;
      WaveStaysSorted(s[..n], key, i, leq);
      forall x | x in WaveOf(s[..n], key, i) ensures leq(x, s[n]) && x in s {
        var m :| 0 <= m < |s[..n]| && s[..n][m] == x;
        assert s[m] == x;
      }
    }
  }

  lemma SortedMembers(a: seq<Row>, x: Row, primaryKey: seq<Id>, show: Rendering)
    ensures x in Arrived(a, primaryKey, show) <==> x in a
  {
    SortContents(a, Arrival(primaryKey, show));
    assert x in multiset(a) <==> x in a;
  }

  // ---------------------------------------------------------------- harmless ties leave the waves alone

  lemma SameHistories(a: seq<Row>, b: seq<Row>, primaryKey: seq<Id>, sortKey: seq<Id>, show: Rendering, k: Cells)
    requires multiset(a) == multiset(b) && TiesAreHarmless(a, primaryKey, sortKey, show)
    ensures Having(Arrived(a, primaryKey, show), Columns(primaryKey), k) == Having(Arrived(b, primaryKey, show), Columns(primaryKey), k)
  {
    hide Having, SortBy, ArrivalText, Pick, Texts, TextsLeq;
    var key, leq := Columns(primaryKey), Arrival(primaryKey, show);
    var sa, sb := Arrived(a, primaryKey, show), Arrived(b, primaryKey, show);
    ArrivalIsTotal(primaryKey, show);
    SortIsSorted(a, leq);
    SortIsSorted(b, leq);
    SortContents(a, leq);
    SortContents(b, leq);
    GroupStaysSorted(sa, key, k, leq);
    GroupStaysSorted(sb, key, k, leq);
    HavingPermutes(sa, sb, key, k);
    HavingMembers(sa, key, k);
    forall x, y | x in Having(sa, key, k) && y in Having(sa, key, k) && leq(x, y) && leq(y, x) ensures x == y {
      SortedMembers(a, x, primaryKey, show);
      SortedMembers(a, y, primaryKey, show);
      ArrivalTies(x, y, primaryKey, show);
      PickedByKey(x, primaryKey);
      PickedByKey(y, primaryKey);
    }
    SortedUnique(Having(sa, key, k), Having(sb, key, k), leq);
  }

  /** Equal histories fill a wave with the same records. */
  lemma SameWaveContents<R, K(!new)>(s: seq<R>, t: seq<R>, key: R -> K, i: nat)
    requires forall k :: Having(s, key, k) == Having(t, key, k)
    ensures multiset(WaveOf(s, key, i)) == multiset(WaveOf(t, key, i))
  {
    hide Having, WaveOf;
    forall x ensures multiset(WaveOf(s, key, i))[x] == multiset(WaveOf(t, key, i))[x] {
      WaveOfKey(s, key, i, key(x));
      WaveOfKey(t, key, i, key(x));
      HavingCounts(WaveOf(s, key, i), key, key(x), x);
      HavingCounts(WaveOf(t, key, i), key, key(x), x);
    }
    SameCounts(multiset(WaveOf(s, key, i)), multiset(WaveOf(t, key, i)));
  }

  /** A stored wave is in table order, and in order of arrival where the table ties. */
  lemma WaveRefined(a: seq<Row>, i: nat, primaryKey: seq<Id>, sortKey: seq<Id>, show: Rendering)
    ensures Sorted(SortBy(WaveOf(Arrived(a, primaryKey, show), Columns(primaryKey), i), TableOrder(sortKey, show)),
                   Refine(TableOrder(sortKey, show), Arrival(primaryKey, show)))
  {
    hide SortBy, WaveOf, TableOrder, Arrival, TotalOrder, Sorted;
    ArrivalIsTotal(primaryKey, show);
    TableOrderIsTotal(sortKey, show);
    SortIsSorted(a, Arrival(primaryKey, show));
    WaveStaysSorted(Arrived(a, primaryKey, show), Columns(primaryKey), i, Arrival(primaryKey, show));
    SortRefines(WaveOf(Arrived(a, primaryKey, show), Columns(primaryKey), i), TableOrder(sortKey, show), Arrival(primaryKey, show));
  }

  lemma SameWave(a: seq<Row>, b: seq<Row>, i: nat, primaryKey: seq<Id>, sortKey: seq<Id>, show: Rendering)
    requires multiset(a) == multiset(b) && TiesAreHarmless(a, primaryKey, sortKey, show)
    ensures SortBy(WaveOf(Arrived(a, primaryKey, show), Columns(primaryKey), i), TableOrder(sortKey, show))
            == SortBy(WaveOf(Arrived(b, primaryKey, show), Columns(primaryKey), i), TableOrder(sortKey, show))
  {
    hide SortBy, WaveOf, Having, TotalOrder, Sorted, TextsLeq, Texts, ArrivalText, Pick;
    var key, table, arrival := Columns(primaryKey), TableOrder(sortKey, show), Arrival(primaryKey, show);
    var va, vb := WaveOf(Arrived(a, primaryKey, show), key, i), WaveOf(Arrived(b, primaryKey, show), key, i);
    forall k ensures Having(Arrived(a, primaryKey, show), key, k) == Having(Arrived(b, primaryKey, show), key, k) {
      SameHistories(a, b, primaryKey, sortKey, show, k);
    }
    SameWaveContents(Arrived(a, primaryKey, show), Arrived(b, primaryKey, show), key, i);
    SortContents(va, table);
    SortContents(vb, table);
    WaveRefined(a, i, primaryKey, sortKey, show);
    WaveRefined(b, i, primaryKey, sortKey, show);
    ArrivalIsTotal(primaryKey, show);
    TableOrderIsTotal(sortKey, show);
    RefineIsTotal(table, arrival);
    forall x, y | x in SortBy(va, table) && y in SortBy(va, table) && Refine(table, arrival)(x, y) && Refine(table, arrival)(y, x)
      ensures x == y
    {
      assert x in multiset(va) && y in multiset(va);
      TiedInWave(a, x, y, i, primaryKey, sortKey, show);
    }
    SortedUnique(SortBy(va, table), SortBy(vb, table), Refine(table, arrival));
  }

  lemma TiedInWave(a: seq<Row>, x: Row, y: Row, i: nat, primaryKey: seq<Id>, sortKey: seq<Id>, show: Rendering)
    requires TiesAreHarmless(a, primaryKey, sortKey, show)
    requires InWave(a, x, i, primaryKey, show) && InWave(a, y, i, primaryKey, show)
    requires var refined := Refine(TableOrder(sortKey, show), Arrival(primaryKey, show)); refined(x, y) && refined(y, x)
    ensures x == y
  {
    hide WaveOf, SortBy, TextsLeq, Texts, ArrivalText, Pick;
    ArrivalTies(x, y, primaryKey, show);
    TableTies(x, y, sortKey, show);
    InPayload(a, x, i, primaryKey, show);
    InPayload(a, y, i, primaryKey, show);
    assert ShareWave(a, x, y, primaryKey, show);
  }

  lemma InPayload(a: seq<Row>, x: Row, i: nat, primaryKey: seq<Id>, show: Rendering)
    requires InWave(a, x, i, primaryKey, show)
    ensures x in a
  {
    hide WaveOf, SortBy;
    WaveStaysSorted(Arrived(a, primaryKey, show), Columns(primaryKey), i, (p, q) => true);
    SortedMembers(a, x, primaryKey, show);
  }

  lemma HarmlessTiesKeepWaves(
      wa: seq<seq<Row>>, a: seq<Row>, wb: seq<seq<Row>>, b: seq<Row>, primaryKey: seq<Id>, sortKey: seq<Id>, show: Rendering)
    requires multiset(a) == multiset(b) && TiesAreHarmless(a, primaryKey, sortKey, show)
    requires Ingested(wa, a, primaryKey, sortKey, show) && Ingested(wb, b, primaryKey, sortKey, show)
    ensures wa == wb
  {
    hide SortBy, WaveOf, Having, TiesAreHarmless, TableOrder;
    forall k
      ensures Having(Arrived(a, primaryKey, show), Columns(primaryKey), k) == Having(Arrived(b, primaryKey, show), Columns(primaryKey), k)
    {
      SameHistories(a, b, primaryKey, sortKey, show, k);
    }
    assert |wa| == |wb|;
    forall i | 0 <= i < |wa| ensures wa[i] == wb[i] {
      SameWave(a, b, i, primaryKey, sortKey, show);
    }
  }

  // ---------------------------------------------------------------- any other tie changes them

  /** Everything else before z. */
  function Last(z: Row): (Row, Row) -> bool {
    (p, q) => p == z ==> q == z
  }

  /** A payload with z at the end keeps z behind whatever it ties with, in its waves too. */
  lemma LastStaysLast(a: seq<Row>, z: Row, x: Row, i: nat, primaryKey: seq<Id>, sortKey: seq<Id>, show: Rendering, m: nat, n: nat)
    requires x != z && ArrivalText(x, primaryKey, show) == ArrivalText(z, primaryKey, show) && Texts(x, sortKey, show) == Texts(z, sortKey, show)
    requires var w := SortBy(WaveOf(Arrived(SortBy(a, Last(z)), primaryKey, show), Columns(primaryKey), i), TableOrder(sortKey, show));
             n < |w| && m < |w| && w[n] == z && w[m] == x
    ensures m < n
  {
    hide SortBy, WaveOf, TotalOrder, TextsLeq, Texts, ArrivalText;
    var table, arrival, b := TableOrder(sortKey, show), Arrival(primaryKey, show), SortBy(a, Last(z));
    SortIsSorted(a, Last(z)) by { LastIsTotal(z); }
    ArrivalIsTotal(primaryKey, show);
    TableOrderIsTotal(sortKey, show);
    hide Sorted;
    SortRefines(b, arrival, Last(z));
    WaveStaysSorted(Arrived(b, primaryKey, show), Columns(primaryKey), i, Refine(arrival, Last(z)));
    SortRefines(WaveOf(Arrived(b, primaryKey, show), Columns(primaryKey), i), table, Refine(arrival, Last(z)));
    ArrivalTies(x, z, primaryKey, show);
    TableTies(x, z, sortKey, show);
    InOrder(SortBy(WaveOf(Arrived(b, primaryKey, show), Columns(primaryKey), i), table), Refine(table, Refine(arrival, Last(z))), n, m);
  }

  lemma InOrder<T>(s: seq<T>, leq: (T, T) -> bool, m: nat, n: nat)
    requires Sorted(s, leq) && m < |s| && n < |s|
    ensures m < n ==> leq(s[m], s[n])
  {
  }

  lemma LastIsTotal(z: Row)
    ensures TotalOrder(Last(z))
  {
  }

  lemma SharedTieMatters(
      wa: seq<seq<Row>>, a: seq<Row>, x: Row, y: Row, primaryKey: seq<Id>, sortKey: seq<Id>, show: Rendering)
    requires Ingested(wa, a, primaryKey, sortKey, show)
    requires x != y && ArrivalText(x, primaryKey, show) == ArrivalText(y, primaryKey, show) && Texts(x, sortKey, show) == Texts(y, sortKey, show)
    requires ShareWave(a, x, y, primaryKey, show)
    ensures !OrderIrrelevant(wa, a, primaryKey, sortKey, show)
  {
    hide SortBy, WaveOf, Texts, ArrivalText, TableOrder, Having;
    var i: nat :| InWave(a, x, i, primaryKey, show) && InWave(a, y, i, primaryKey, show);
    WaveIsStored(wa, a, x, i, primaryKey, sortKey, show);
    WaveIsStored(wa, a, y, i, primaryKey, sortKey, show);
    var m :| 0 <= m < |wa[i]| && wa[i][m] == x;
    var n :| 0 <= n < |wa[i]| && wa[i][n] == y;
    if OrderIrrelevant(wa, a, primaryKey, sortKey, show) {
      SortContents(a, Last(y));
      SortContents(a, Last(x));
      var wy := WavesExist(wa, a, SortBy(a, Last(y)), primaryKey, sortKey, show);
      var wx := WavesExist(wa, a, SortBy(a, Last(x)), primaryKey, sortKey, show);
      assert wy == wa && wx == wa;
      LastStaysLast(a, y, x, i, primaryKey, sortKey, show, m, n);
      LastStaysLast(a, x, y, i, primaryKey, sortKey, show, n, m);
      assert false;
    }
  }

  lemma WaveIsStored(wa: seq<seq<Row>>, a: seq<Row>, x: Row, i: nat, primaryKey: seq<Id>, sortKey: seq<Id>, show: Rendering)
    requires Ingested(wa, a, primaryKey, sortKey, show) && InWave(a, x, i, primaryKey, show)
    ensures i < |wa| && x in wa[i]
  {
    hide SortBy, WaveOf, TableOrder, Having;
    var s, key := Arrived(a, primaryKey, show), Columns(primaryKey);
    WaveOfKey(s, key, i, key(x));
    HavingMembers(WaveOf(s, key, i), key, key(x));
    assert i < |Having(s, key, key(x))|;
    SortContents(WaveOf(s, key, i), TableOrder(sortKey, show));
    assert x in multiset(WaveOf(s, key, i));
  }

  // ---------------------------------------------------------------- the exact condition

  /** The waves do not depend on the payload's order exactly when its ties are harmless. */
  lemma WavesIgnoreOrderIff(wa: seq<seq<Row>>, a: seq<Row>, primaryKey: seq<Id>, sortKey: seq<Id>, show: Rendering)
    requires Ingested(wa, a, primaryKey, sortKey, show)
    ensures OrderIrrelevant(wa, a, primaryKey, sortKey, show) <==> TiesAreHarmless(a, primaryKey, sortKey, show)
  {
    hide Ingested, Texts, Pick, Stamp, ArrivalText, ShareWave;
    if TiesAreHarmless(a, primaryKey, sortKey, show) {
      forall b, wb | multiset(b) == multiset(a) && Ingested(wb, b, primaryKey, sortKey, show) ensures wb == wa {
        HarmlessTiesKeepWaves(wa, a, wb, b, primaryKey, sortKey, show);
      }
    } else {
      var x, y :| x in a && y in a && x != y && ArrivalText(x, primaryKey, show) == ArrivalText(y, primaryKey, show)
                  && (Pick(x, primaryKey) == Pick(y, primaryKey)
                      || (ShareWave(a, x, y, primaryKey, show) && Texts(x, sortKey, show) == Texts(y, sortKey, show)));
      if Pick(x, primaryKey) == Pick(y, primaryKey) {
        SameKeyMatters(wa, a, x, y, primaryKey, sortKey, show);
      } else {
        SharedTieMatters(wa, a, x, y, primaryKey, sortKey, show);
      }
    }
  }

  lemma SameKeyMatters(
      wa: seq<seq<Row>>, a: seq<Row>, x: Row, y: Row, primaryKey: seq<Id>, sortKey: seq<Id>, show: Rendering)
    requires Ingested(wa, a, primaryKey, sortKey, show) && x in a && y in a && x != y
    requires ArrivalText(x, primaryKey, show) == ArrivalText(y, primaryKey, show) && Pick(x, primaryKey) == Pick(y, primaryKey)
    ensures !OrderIrrelevant(wa, a, primaryKey, sortKey, show)
  {
    hide Ingested, Pick, Stamp;
    TextSplits(x, y, primaryKey, show);
    var i :| 0 <= i < |a| && a[i] == x;
    var j :| 0 <= j < |a| && a[j] == y;
    var lo, hi := if i < j then i else j, if i < j then j else i;
    var b := a[lo := a[hi]][hi := a[lo]];
    SwapKeepsContents(a, lo, hi);
    var wb := WavesExist(wa, a, b, primaryKey, sortKey, show);
    SwappedTiesChangeWaves(a, lo, hi, primaryKey, sortKey, show, wa, wb);
  }

  /** Where different keys have different texts, only ties of one key remain: no two different records share time and key. */
  lemma TellingKeysIff(wa: seq<seq<Row>>, a: seq<Row>, primaryKey: seq<Id>, sortKey: seq<Id>, show: Rendering)
    requires Ingested(wa, a, primaryKey, sortKey, show) && KeyTextsTell(a, primaryKey, show)
    ensures OrderIrrelevant(wa, a, primaryKey, sortKey, show) <==> ArrivalsDiffer(a, primaryKey, show)
  {
    hide Ingested, Texts, Pick, Stamp, ArrivalText, ShareWave, OrderIrrelevant;
    WavesIgnoreOrderIff(wa, a, primaryKey, sortKey, show);
    forall x, y | x in a && y in a && ArrivalText(x, primaryKey, show) == ArrivalText(y, primaryKey, show)
      ensures Pick(x, primaryKey) == Pick(y, primaryKey)
    {
      TextSplits(x, y, primaryKey, show);
    }
  }

  lemma TextSplits(x: Row, y: Row, primaryKey: seq<Id>, show: Rendering)
    requires ArrivalText(x, primaryKey, show) == ArrivalText(y, primaryKey, show)
    ensures Stamp(x, show) == Stamp(y, show) && Texts(x, primaryKey, show) == Texts(y, primaryKey, show)
  {
    assert ArrivalText(x, primaryKey, show)[0] == Stamp(x, show) && ArrivalText(x, primaryKey, show)[1..] == Texts(x, primaryKey, show);
    assert ArrivalText(y, primaryKey, show)[0] == Stamp(y, show) && ArrivalText(y, primaryKey, show)[1..] == Texts(y, primaryKey, show);
  }

  /** Such records exist: two rows of one key without a knowledge time. */
  lemma TiedPayload(show: Rendering, wa: seq<seq<Row>>, sortKey: seq<Id>) returns (a: seq<Row>)
    ensures !ArrivalsDiffer(a, ["id"], show) && KeyTextsTell(a, ["id"], show)
    ensures Ingested(wa, a, ["id"], sortKey, show) ==> !OrderIrrelevant(wa, a, ["id"], sortKey, show)
  {
    var x: Row := map["id" := Text("A"), "value" := Text("1")];
    var y: Row := map["id" := Text("A"), "value" := Text("2")];
    a := [x, y];
    assert x["value"] != y["value"];
    assert Pick(x, ["id"]) == Pick(y, ["id"]);
    SameArrivalText(x, y, ["id"], show);
    if Ingested(wa, a, ["id"], sortKey, show) {
      TellingKeysIff(wa, a, ["id"], sortKey, show);
    }
  }

  /** A null key and the text it is shown as: different keys, and the waves still depend on the order. */
  lemma NullAndItsText(show: Rendering, wa: seq<seq<Row>>) returns (a: seq<Row>)
    requires show.str(Null) == show.str(Text("None"))
    ensures !KeyTextsTell(a, ["id"], show) && forall x, y :: x in a && y in a && x != y ==> Pick(x, ["id"]) != Pick(y, ["id"])
    ensures Ingested(wa, a, ["id"], ["id"], show) ==> !OrderIrrelevant(wa, a, ["id"], ["id"], show)
  {
    var x: Row := map["id" := Null];
    var y: Row := map["id" := Text("None")];
    a := [x, y];
    LooksAlike(x, y, show);
    hide Having, WaveOf, SortBy, Pick, Texts, Ingested, OrderIrrelevant, ArrivalText;
    OnlyOfItsKey(a, 0, ["id"], show);
    OnlyOfItsKey(a, 1, ["id"], show);
    assert InWave(a, x, 0, ["id"], show) && InWave(a, y, 0, ["id"], show);
    if Ingested(wa, a, ["id"], ["id"], show) {
      SharedTieMatters(wa, a, x, y, ["id"], ["id"], show);
    }
  }

  lemma LooksAlike(x: Row, y: Row, show: Rendering)
    requires x == map["id" := Null] && y == map["id" := Text("None")] && show.str(Null) == show.str(Text("None"))
    ensures Pick(x, ["id"]) != Pick(y, ["id"]) && Texts(x, ["id"], show) == Texts(y, ["id"], show)
    ensures ArrivalText(x, ["id"], show) == ArrivalText(y, ["id"], show)
  {
    assert Pick(x, ["id"])[0] == Null && Pick(y, ["id"])[0] == Text("None");
  }

  /** The only record of its key is in the first wave. */
  lemma OnlyOfItsKey(a: seq<Row>, i: nat, primaryKey: seq<Id>, show: Rendering)
    requires i < |a| && forall j :: 0 <= j < |a| && j != i ==> Pick(a[j], primaryKey) != Pick(a[i], primaryKey)
    ensures InWave(a, a[i], 0, primaryKey, show)
  {
    hide Having, WaveOf, SortBy, Pick;
    var key := Columns(primaryKey);
    var s, k := Arrived(a, primaryKey, show), key(a[i]);
    SortedMembers(a, a[i], primaryKey, show);
    HavingMembers(s, key, k);
    var h := Having(s, key, k);
    assert a[i] in h;
    forall r | r in h ensures r == a[i] {
      SortedMembers(a, r, primaryKey, show);
      PickedByKey(r, primaryKey);
      PickedByKey(a[i], primaryKey);
    }
    WaveOfKey(s, key, 0, k);
    HavingMembers(WaveOf(s, key, 0), key, k);
    assert h[0] in Having(WaveOf(s, key, 0), key, k);
  }
}

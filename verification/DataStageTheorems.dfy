/** What the ingestion waves of a payload guarantee. */
module DataStageTheorems {
  import opened DataStage
  import opened Grouping
  import opened Ordering

  /** The records in order of arrival. */
  function Arrived(records: seq<Row>, primaryKey: seq<Id>, show: Rendering): seq<Row> {
    SortBy(records, Arrival(primaryKey, show))
  }

  /** What VintageWaves returns. */
  ghost predicate Ingested(waves: seq<seq<Row>>, records: seq<Row>, primaryKey: seq<Id>, sortKey: seq<Id>, show: Rendering) {
    && EnoughWaves(|waves|, Arrived(records, primaryKey, show), Columns(primaryKey))
    && forall i :: 0 <= i < |waves| ==>
         waves[i] == SortBy(WaveOf(Arrived(records, primaryKey, show), Columns(primaryKey), i), TableOrder(sortKey, show))
  }

  // ---------------------------------------------------------------- one vintage per key and wave

  /** In wave i, a key has its i-th record in order of arrival, if it has that many, and nothing else. */
  lemma VintageInWave(
      waves: seq<seq<Row>>, records: seq<Row>, primaryKey: seq<Id>, sortKey: seq<Id>, show: Rendering, i: nat, k: Cells)
    requires Ingested(waves, records, primaryKey, sortKey, show) && i < |waves|
    ensures Having(waves[i], Columns(primaryKey), k)
            == Nth(Having(Arrived(records, primaryKey, show), Columns(primaryKey), k), i)
  {
    hide Having, WaveOf, SortBy;
    var key := Columns(primaryKey);
    var unsorted := WaveOf(Arrived(records, primaryKey, show), key, i);
    WaveOfKey(Arrived(records, primaryKey, show), key, i, k);
    SortContents(unsorted, TableOrder(sortKey, show));
    HavingPermutes(unsorted, waves[i], key, k);
    SameSingleton(Having(unsorted, key, k), Having(waves[i], key, k));
  }

  lemma SameSingleton<T>(a: seq<T>, b: seq<T>)
    requires multiset(a) == multiset(b) && |a| <= 1
    ensures a == b
  {
    SameLength(a, b);
    if a != [] {
      assert a[0] in multiset(b);
    }
  }

  /** No wave holds a key twice. */
  lemma WavesAreKeyUnique(
      waves: seq<seq<Row>>, records: seq<Row>, primaryKey: seq<Id>, sortKey: seq<Id>, show: Rendering, i: nat, m: nat, n: nat)
    requires Ingested(waves, records, primaryKey, sortKey, show) && i < |waves| && m < n < |waves[i]|
    ensures Pick(waves[i][m], primaryKey) != Pick(waves[i][n], primaryKey)
  {
    hide Having, Ingested, Pick;
    var key := Columns(primaryKey);
    VintageInWave(waves, records, primaryKey, sortKey, show, i, key(waves[i][n]));
    if key(waves[i][m]) == key(waves[i][n]) {
      TwiceHeld(waves[i], key, m, n);
      assert false;
    }
    PickedByKey(waves[i][m], primaryKey);
    PickedByKey(waves[i][n], primaryKey);
  }

  lemma PickedByKey(row: Row, primaryKey: seq<Id>)
    ensures Columns(primaryKey)(row) == Pick(row, primaryKey)
  {
  }

  /** Two members with one key make a group of at least two. */
  lemma {:induction false} TwiceHeld<R, K>(s: seq<R>, key: R -> K, m: nat, n: nat)
    requires m < n < |s| && key(s[m]) == key(s[n])
    ensures |Having(s, key, key(s[n]))| >= 2
    decreases |s|
  {
    var last := |s| - 1;
    if n == last {
      assert s[m] in s[..last] by { assert s[..last][m] == s[m]; }
      HavingMembers(s[..last], key, key(s[m]));
    } else {
      TwiceHeld(s[..last], key, m, n);
    }
  }

  /** Every wave is stored in the table's sort order. */
  lemma WavesInTableOrder(
      waves: seq<seq<Row>>, records: seq<Row>, primaryKey: seq<Id>, sortKey: seq<Id>, show: Rendering, i: nat)
    requires Ingested(waves, records, primaryKey, sortKey, show) && i < |waves|
    ensures Sorted(waves[i], TableOrder(sortKey, show))
  {
    hide SortBy, WaveOf, TableOrder;
    TableOrderIsTotal(sortKey, show);
    SortIsSorted(WaveOf(Arrived(records, primaryKey, show), Columns(primaryKey), i), TableOrder(sortKey, show));
  }

  // ---------------------------------------------------------------- how many waves, and which keys

  /** A key occurs in wave i exactly when more than i records carry it, so the keys of a wave are among those of the one before. */
  lemma WaveKeys(
      waves: seq<seq<Row>>, records: seq<Row>, primaryKey: seq<Id>, sortKey: seq<Id>, show: Rendering, i: nat, k: Cells)
    requires Ingested(waves, records, primaryKey, sortKey, show) && i < |waves|
    ensures (exists r :: r in waves[i] && Pick(r, primaryKey) == k) <==> i < |Having(records, Columns(primaryKey), k)|
    ensures i + 1 < |waves| && (exists r :: r in waves[i + 1] && Pick(r, primaryKey) == k)
            ==> exists r :: r in waves[i] && Pick(r, primaryKey) == k
  {
    hide Having, Ingested, Pick, SortBy;
    OccursInWave(waves, records, primaryKey, sortKey, show, i, k);
    if i + 1 < |waves| {
      OccursInWave(waves, records, primaryKey, sortKey, show, i + 1, k);
    }
  }

  lemma OccursInWave(
      waves: seq<seq<Row>>, records: seq<Row>, primaryKey: seq<Id>, sortKey: seq<Id>, show: Rendering, i: nat, k: Cells)
    requires Ingested(waves, records, primaryKey, sortKey, show) && i < |waves|
    ensures (exists r :: r in waves[i] && Pick(r, primaryKey) == k) <==> i < |Having(records, Columns(primaryKey), k)|
  {
    hide Having, Ingested, Pick, SortBy;
    var key := Columns(primaryKey);
    VintageInWave(waves, records, primaryKey, sortKey, show, i, k);
    HavingMembers(waves[i], key, k);
    SortContents(records, Arrival(primaryKey, show));
    HavingPermutes(Arrived(records, primaryKey, show), records, key, k);
    if i < |Having(records, key, k)| {
      assert Having(waves[i], key, k)[0] in Having(waves[i], key, k);
    } else {
      assert Having(waves[i], key, k) == [];
    }
  }

  /** There are as many waves as the most repeated key has records. */
  lemma WaveCount(waves: seq<seq<Row>>, records: seq<Row>, primaryKey: seq<Id>, sortKey: seq<Id>, show: Rendering)
    requires Ingested(waves, records, primaryKey, sortKey, show)
    ensures EnoughWaves(|waves|, records, Columns(primaryKey))
    ensures records == [] <==> waves == []
  {
    hide Having, SortBy;
    var key := Columns(primaryKey);
    var arrived := Arrived(records, primaryKey, show);
    SortContents(records, Arrival(primaryKey, show));
    forall k ensures |Having(arrived, key, k)| == |Having(records, key, k)| {
      HavingPermutes(arrived, records, key, k);
    }
    if records != [] {
      HavingMembers(records, key, key(records[0]));
      assert records[0] in Having(records, key, key(records[0]));
    }
    if waves != [] {
      var k :| |Having(records, key, k)| == |waves|;
      HavingMembers(records, key, k);
      assert Having(records, key, k)[0] in records;
    }
  }

  // ---------------------------------------------------------------- replay and conservation

  function FirstUpTo<T>(s: seq<T>, n: nat): seq<T> {
    if n <= |s| then s[..n] else s
  }

  lemma OneFurther<T>(s: seq<T>, n: nat)
    ensures FirstUpTo(s, n) + Nth(s, n) == FirstUpTo(s, n + 1)
  {
  }

  lemma FlattenNext<T>(waves: seq<seq<T>>, n: nat)
    requires n < |waves|
    ensures Flatten(waves[..n + 1]) == Flatten(waves[..n]) + waves[n]
  {
    assert waves[..n + 1][..n] == waves[..n];
  }

  lemma {:induction false} ReplayPrefix(
      waves: seq<seq<Row>>, records: seq<Row>, primaryKey: seq<Id>, sortKey: seq<Id>, show: Rendering, n: nat, k: Cells)
    requires Ingested(waves, records, primaryKey, sortKey, show) && n <= |waves|
    ensures Having(Flatten(waves[..n]), Columns(primaryKey), k)
            == FirstUpTo(Having(Arrived(records, primaryKey, show), Columns(primaryKey), k), n)
    decreases n
  {
    hide Having, Ingested, Arrived, FirstUpTo, Columns, Flatten, Nth;
    if n == 0 {
      NothingReplayed(waves, Columns(primaryKey), k, Having(Arrived(records, primaryKey, show), Columns(primaryKey), k));
    } else {
      ReplayPrefix(waves, records, primaryKey, sortKey, show, n - 1, k);
      VintageInWave(waves, records, primaryKey, sortKey, show, n - 1, k);
      OneMoreWave(waves, n - 1, Columns(primaryKey), k, Having(Arrived(records, primaryKey, show), Columns(primaryKey), k));
    }
  }

  lemma NothingReplayed<R, K>(waves: seq<seq<R>>, key: R -> K, k: K, h: seq<R>)
    ensures Having(Flatten(waves[..0]), key, k) == FirstUpTo(h, 0)
  {
  }

  /** Joining wave n adds the n-th record of the key's history h. */
  lemma OneMoreWave<R, K>(waves: seq<seq<R>>, n: nat, key: R -> K, k: K, h: seq<R>)
    requires n < |waves|
    requires Having(Flatten(waves[..n]), key, k) == FirstUpTo(h, n) && Having(waves[n], key, k) == Nth(h, n)
    ensures Having(Flatten(waves[..n + 1]), key, k) == FirstUpTo(h, n + 1)
  {
    hide Having, Flatten;
    FlattenNext(waves, n);
    HavingConcat(Flatten(waves[..n]), waves[n], key, k);
    OneFurther(h, n);
  }

  /** Ingesting the waves one after the other replays the history of every key in order of arrival. */
  lemma WavesReplayHistory(
      waves: seq<seq<Row>>, records: seq<Row>, primaryKey: seq<Id>, sortKey: seq<Id>, show: Rendering, k: Cells)
    requires Ingested(waves, records, primaryKey, sortKey, show)
    ensures Having(Flatten(waves), Columns(primaryKey), k) == Having(Arrived(records, primaryKey, show), Columns(primaryKey), k)
  {
    hide Having, SortBy;
    ReplayPrefix(waves, records, primaryKey, sortKey, show, |waves|, k);
    assert waves[..|waves|] == waves;
  }

  /** The waves hold every record of the payload, as often as the payload does. */
  lemma WavesPartitionRecords(waves: seq<seq<Row>>, records: seq<Row>, primaryKey: seq<Id>, sortKey: seq<Id>, show: Rendering)
    requires Ingested(waves, records, primaryKey, sortKey, show)
    ensures multiset(Flatten(waves)) == multiset(records)
  {
    hide Having, SortBy, Ingested, Flatten, Pick;
    var key := Columns(primaryKey);
    var arrived := Arrived(records, primaryKey, show);
    SortContents(records, Arrival(primaryKey, show));
    forall x ensures multiset(Flatten(waves))[x] == multiset(arrived)[x] {
      WavesReplayHistory(waves, records, primaryKey, sortKey, show, key(x));
      HavingCounts(Flatten(waves), key, key(x), x);
      HavingCounts(arrived, key, key(x), x);
    }
    SameCounts(multiset(Flatten(waves)), multiset(arrived));
  }

  // ---------------------------------------------------------------- knowledge order

  lemma {:induction false} GroupStaysSorted<R(!new), K>(s: seq<R>, key: R -> K, k: K, leq: (R, R) -> bool)
    requires Sorted(s, leq)
    ensures Sorted(Having(s, key, k), leq)
    decreases |s|
  {
    if s != [] {
      var n := |s| - 1;
      GroupStaysSorted(s[..n], key, k, leq);
      HavingMembers(s[..n], key, k);
      forall x | x in Having(s[..n], key, k) ensures leq(x, s[n]) {
        var i :| 0 <= i < |s[..n]| && s[..n][i] == x;
        assert s[i] == x;
      }
    }
  }

  /** ISO text orders instants as time does. */
  ghost predicate IsoFollowsTime(show: Rendering) {
    && (forall s, t :: IdLeq(show.iso(s), show.iso(t)) ==> s <= t)
  }

  /** Of two records of one key, the one in the earlier wave was known no later. */
  lemma EarlierWaveKnownFirst(
      waves: seq<seq<Row>>, records: seq<Row>, primaryKey: seq<Id>, sortKey: seq<Id>, show: Rendering,
      i: nat, r: Row, j: nat, q: Row)
    requires Ingested(waves, records, primaryKey, sortKey, show) && i < j < |waves|
    requires r in waves[i] && q in waves[j] && Pick(r, primaryKey) == Pick(q, primaryKey)
    ensures IdLeq(Stamp(r, show), Stamp(q, show))
    ensures IsoFollowsTime(show) && Get(r, KNOWLEDGE_TIME).Instant? && Get(q, KNOWLEDGE_TIME).Instant?
            ==> Get(r, KNOWLEDGE_TIME).micros <= Get(q, KNOWLEDGE_TIME).micros
  {
    hide Having, Ingested, Pick, SortBy, IdLess, Texts, TotalOrder;
    var key := Columns(primaryKey);
    var leq := Arrival(primaryKey, show);
    var h := Having(Arrived(records, primaryKey, show), key, key(r));
    HeldBy(waves, records, primaryKey, sortKey, show, i, r);
    HeldBy(waves, records, primaryKey, sortKey, show, j, q);
    ArrivalIsTotal(primaryKey, show);
    SortIsSorted(records, leq);
    GroupStaysSorted(Arrived(records, primaryKey, show), key, key(r), leq);
    assert leq(h[i], h[j]);
  }

  lemma HeldBy(waves: seq<seq<Row>>, records: seq<Row>, primaryKey: seq<Id>, sortKey: seq<Id>, show: Rendering, i: nat, r: Row)
    requires Ingested(waves, records, primaryKey, sortKey, show) && i < |waves| && r in waves[i]
    ensures i < |Having(Arrived(records, primaryKey, show), Columns(primaryKey), Columns(primaryKey)(r))|
    ensures Having(Arrived(records, primaryKey, show), Columns(primaryKey), Columns(primaryKey)(r))[i] == r
  {
    hide Having, Ingested, Pick, SortBy;
    var key := Columns(primaryKey);
    VintageInWave(waves, records, primaryKey, sortKey, show, i, key(r));
    HavingMembers(waves[i], key, key(r));
    assert r in Having(waves[i], key, key(r));
  }

  // ---------------------------------------------------------------- order of the payload

  /** No two different records share their knowledge time and key. */
  ghost predicate ArrivalsDiffer(records: seq<Row>, primaryKey: seq<Id>, show: Rendering) {
    forall x, y :: x in records && y in records && ArrivalText(x, primaryKey, show) == ArrivalText(y, primaryKey, show) ==> x == y
  }

  /** The waves of a payload do not depend on the order of its records, when their arrivals differ. */
  lemma WavesIgnoreOrder(
      a: seq<Row>, b: seq<Row>, primaryKey: seq<Id>, sortKey: seq<Id>, show: Rendering, wa: seq<seq<Row>>, wb: seq<seq<Row>>)
    requires multiset(a) == multiset(b) && ArrivalsDiffer(a, primaryKey, show)
    requires Ingested(wa, a, primaryKey, sortKey, show) && Ingested(wb, b, primaryKey, sortKey, show)
    ensures wa == wb
  {
    hide Having, SortBy, WaveOf, TextsLeq, ArrivalText;
    var leq := Arrival(primaryKey, show);
    ArrivalIsTotal(primaryKey, show);
    SortIsSorted(a, leq);
    SortIsSorted(b, leq);
    SortContents(a, leq);
    SortContents(b, leq);
    var sa := Arrived(a, primaryKey, show);
    forall x, y | x in sa && y in sa && leq(x, y) && leq(y, x) ensures x == y {
      assert x in multiset(a) && y in multiset(a);
      TextsTotal(ArrivalText(x, primaryKey, show), ArrivalText(y, primaryKey, show));
    }
    SortedUnique(sa, Arrived(b, primaryKey, show), leq);
    SameHeight(sa, Columns(primaryKey), |wa|, |wb|);
  }

  lemma SameHeight<R, K(!new)>(s: seq<R>, key: R -> K, m: nat, n: nat)
    requires EnoughWaves(m, s, key) && EnoughWaves(n, s, key)
    ensures m == n
  {
  }

  function StampOf(show: Rendering): Row -> Id {
    row => Stamp(row, show)
  }

  /** What decides a record's arrival: its key and its stamp. */
  function ArrivalKey(primaryKey: seq<Id>, show: Rendering): Row -> (Cells, Id) {
    row => (Pick(row, primaryKey), Stamp(row, show))
  }

  lemma SameArrivalText(x: Row, y: Row, primaryKey: seq<Id>, show: Rendering)
    requires ArrivalKey(primaryKey, show)(x) == ArrivalKey(primaryKey, show)(y)
    ensures ArrivalText(x, primaryKey, show) == ArrivalText(y, primaryKey, show)
  {
    forall i | 0 <= i < |primaryKey| ensures Get(x, primaryKey[i]) == Get(y, primaryKey[i]) {
      assert Pick(x, primaryKey)[i] == Pick(y, primaryKey)[i];
    }
    assert Texts(x, primaryKey, show) == Texts(y, primaryKey, show);
  }

  /** Replaying the waves gives the records of one key and stamp in the payload's order. */
  lemma TiedArrivalsFollowThePayload(
      waves: seq<seq<Row>>, records: seq<Row>, primaryKey: seq<Id>, sortKey: seq<Id>, show: Rendering, k: Cells, stamp: Id)
    requires Ingested(waves, records, primaryKey, sortKey, show)
    ensures Having(Having(Flatten(waves), Columns(primaryKey), k), StampOf(show), stamp)
            == Having(records, ArrivalKey(primaryKey, show), (k, stamp))
  {
    hide Having, SortBy, Ingested, Flatten, Pick, ArrivalText, TextsLeq, Stamp;
    var leq, both := Arrival(primaryKey, show), ArrivalKey(primaryKey, show);
    WavesReplayHistory(waves, records, primaryKey, sortKey, show, k);
    HavingTwice(Arrived(records, primaryKey, show), Columns(primaryKey), k, StampOf(show), stamp, both);
    forall x, y | x in records && y in records && both(x) == (k, stamp) && both(y) == (k, stamp) ensures leq(x, y) {
      SameArrivalText(x, y, primaryKey, show);
      TextsTotal(ArrivalText(x, primaryKey, show), ArrivalText(y, primaryKey, show));
    }
    SortIsStable(records, leq, both, (k, stamp));
  }

  /** Swapping two different members of one group changes the group. */
  lemma SwapChangesGroup<R, K>(a: seq<R>, i: nat, j: nat, key: R -> K)
    requires i < j < |a| && a[i] != a[j] && key(a[i]) == key(a[j])
    ensures Having(a, key, key(a[i])) != Having(a[i := a[j]][j := a[i]], key, key(a[i]))
  {
    hide Having;
    var b, k := a[i := a[j]][j := a[i]], key(a[i]);
    GroupAround(a, i, key);
    GroupAround(b, i, key);
    assert a[..i] == b[..i];
  }

  /** A member's group is what comes before it, itself, and what comes after it. */
  lemma GroupAround<R, K>(s: seq<R>, i: nat, key: R -> K)
    requires i < |s|
    ensures |Having(s, key, key(s[i]))| > |Having(s[..i], key, key(s[i]))|
    ensures Having(s, key, key(s[i]))[|Having(s[..i], key, key(s[i]))|] == s[i]
  {
    var k := key(s[i]);
    assert s == s[..i] + ([s[i]] + s[i + 1..]);
    HavingOne(s[i], key, k);
    hide Having;
    HavingConcat(s[..i], [s[i]] + s[i + 1..], key, k);
    HavingConcat([s[i]], s[i + 1..], key, k);
  }

  /** Swapping two different records of one key and stamp always changes the waves. */
  lemma SwappedTiesChangeWaves(
      a: seq<Row>, i: nat, j: nat, primaryKey: seq<Id>, sortKey: seq<Id>, show: Rendering, wa: seq<seq<Row>>, wb: seq<seq<Row>>)
    requires i < j < |a| && a[i] != a[j]
    requires ArrivalKey(primaryKey, show)(a[i]) == ArrivalKey(primaryKey, show)(a[j])
    requires Ingested(wa, a, primaryKey, sortKey, show) && Ingested(wb, a[i := a[j]][j := a[i]], primaryKey, sortKey, show)
    ensures wa != wb
  {
    hide Having, Ingested, Pick, Stamp;
    var k, stamp := Pick(a[i], primaryKey), Stamp(a[i], show);
    TiedArrivalsFollowThePayload(wa, a, primaryKey, sortKey, show, k, stamp);
    TiedArrivalsFollowThePayload(wb, a[i := a[j]][j := a[i]], primaryKey, sortKey, show, k, stamp);
    SwapChangesGroup(a, i, j, ArrivalKey(primaryKey, show));
  }
}

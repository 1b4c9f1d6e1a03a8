/** Shaping raw payloads for the point-in-time store: key-unique ingestion waves, and one row per interval. */
module DataStage {
  import opened Grouping
  import opened Ordering

  /** A cell is null, a tz-aware instant in microseconds, a calendar day, or anything else by its text. */
  datatype Cell = Null | Instant(micros: int) | Day(day: int) | Text(text: Id)

  type Row = map<Id, Cell>

  type Cells = seq<Cell>

  const KNOWLEDGE_TIME := "knowledge_time"

  /** record.get(column) */
  function Get(row: Row, column: Id): Cell {
    if column in row then row[column] else Null
  }

  function Pick(row: Row, columns: seq<Id>): Cells {
    Mapped(columns, column => Get(row, column))
  }

  /** tuple(record.get(c) for c in columns) */
  function Columns(columns: seq<Id>): Row -> Cells {
    row => Pick(row, columns)
  }

  // ---------------------------------------------------------------- the orders of arrival and of the table

  /** How Python renders a cell: datetime.isoformat and str. */
  datatype Rendering = Rendering(iso: int -> Id, str: Cell -> Id)

  function Stamp(row: Row, show: Rendering): Id {
    var kt := Get(row, KNOWLEDGE_TIME);
    if kt.Instant? then show.iso(kt.micros) else ""
  }

  /** The columns of a row as text. */
  function Texts(row: Row, columns: seq<Id>, show: Rendering): seq<Id> {
    Mapped(columns, column => show.str(Get(row, column)))
  }

  function ArrivalText(row: Row, primaryKey: seq<Id>, show: Rendering): seq<Id> {
    [Stamp(row, show)] + Texts(row, primaryKey, show)
  }

  /** Tuples of text compare lexicographically. */
  predicate TextsLeq(a: seq<Id>, b: seq<Id>) {
    if a == [] then true
    else if b == [] then false
    else IdLess(a[0], b[0]) || (a[0] == b[0] && TextsLeq(a[1..], b[1..]))
  }

  /** Records arrive in the order of (knowledge time, primary key). */
  function Arrival(primaryKey: seq<Id>, show: Rendering): (Row, Row) -> bool {
    (a, b) => TextsLeq(ArrivalText(a, primaryKey, show), ArrivalText(b, primaryKey, show))
  }

  /** Each wave is stored in the table's own sort order. */
  function TableOrder(sortKey: seq<Id>, show: Rendering): (Row, Row) -> bool {
    (a, b) => TextsLeq(Texts(a, sortKey, show), Texts(b, sortKey, show))
  }

  lemma {:induction false} TextsTotal(a: seq<Id>, b: seq<Id>)
    ensures TextsLeq(a, b) || TextsLeq(b, a)
    ensures TextsLeq(a, b) && TextsLeq(b, a) ==> a == b
  {
    if a != [] && b != [] {
      IdLessTotal(a[0], b[0]);
      TextsTotal(a[1..], b[1..]);
      assert a == [a[0]] + a[1..] && b == [b[0]] + b[1..];
    }
  }

  lemma {:induction false} TextsTransitive(a: seq<Id>, b: seq<Id>, c: seq<Id>)
    requires TextsLeq(a, b) && TextsLeq(b, c)
    ensures TextsLeq(a, c)
  {
    if a != [] {
      if IdLess(a[0], b[0]) && IdLess(b[0], c[0]) {
        IdLessTransitive(a[0], b[0], c[0]);
      } else if a[0] == b[0] && b[0] == c[0] {
        TextsTransitive(a[1..], b[1..], c[1..]);
      }
    }
  }

  lemma ArrivalIsTotal(primaryKey: seq<Id>, show: Rendering)
    ensures TotalOrder(Arrival(primaryKey, show))
  {
    hide TextsLeq, ArrivalText;
    var leq := Arrival(primaryKey, show);
    forall a, b ensures leq(a, b) || leq(b, a) {
      TextsTotal(ArrivalText(a, primaryKey, show), ArrivalText(b, primaryKey, show));
    }
    forall a, b, c | leq(a, b) && leq(b, c) ensures leq(a, c) {
      TextsTransitive(ArrivalText(a, primaryKey, show), ArrivalText(b, primaryKey, show), ArrivalText(c, primaryKey, show));
    }
  }

  lemma TableOrderIsTotal(sortKey: seq<Id>, show: Rendering)
    ensures TotalOrder(TableOrder(sortKey, show))
  {
    hide TextsLeq, Texts;
    var leq := TableOrder(sortKey, show);
    forall a, b ensures leq(a, b) || leq(b, a) {
      TextsTotal(Texts(a, sortKey, show), Texts(b, sortKey, show));
    }
    forall a, b, c | leq(a, b) && leq(b, c) ensures leq(a, c) {
      TextsTransitive(Texts(a, sortKey, show), Texts(b, sortKey, show), Texts(c, sortKey, show));
    }
  }

  // ---------------------------------------------------------------- what the waves are

  /** The records that are the i-th of their key, in order of arrival. */
  function WaveOf<R, K(==)>(arrived: seq<R>, key: R -> K, i: nat): seq<R> {
    if arrived == [] then [] else
    var n := |arrived| - 1;
    WaveOf(arrived[..n], key, i)
    + if |Having(arrived[..n], key, key(arrived[n]))| == i then [arrived[n]] else []
  }

  function Nth<T>(s: seq<T>, i: nat): seq<T> {
    if i < |s| then [s[i]] else []
  }

  /** The waves joined end to end. */
  function Flatten<T>(waves: seq<seq<T>>): seq<T> {
    if waves == [] then [] else Flatten(waves[..|waves| - 1]) + waves[|waves| - 1]
  }

  /** As many waves as the most repeated key has records. */
  ghost predicate EnoughWaves<R, K(!new)>(n: nat, arrived: seq<R>, key: R -> K) {
    && (forall k :: |Having(arrived, key, k)| <= n)
    && (n > 0 ==> exists k :: |Having(arrived, key, k)| == n)
  }

  lemma WaveAppend<R, K>(s: seq<R>, x: R, key: R -> K, i: nat)
    ensures WaveOf(s + [x], key, i) == WaveOf(s, key, i) + if |Having(s, key, key(x))| == i then [x] else []
  {
    assert (s + [x])[..|s|] == s;
  }

  /** A wave holds exactly the i-th record of every key that has one. */
  lemma {:induction false} WaveOfKey<R, K>(s: seq<R>, key: R -> K, i: nat, k: K)
    ensures Having(WaveOf(s, key, i), key, k) == Nth(Having(s, key, k), i)
    decreases |s|
  {
    if s != [] {
      hide Having, WaveOf, Nth;
      var n := |s| - 1;
      assert s == s[..n] + [s[n]];
      WaveOfKey(s[..n], key, i, k);
      WaveStep(s[..n], s[n], key, i, k);
    }
  }

  /** One more record: it reaches the wave's group of its own key when it is that key's i-th. */
  lemma WaveStep<R, K>(s: seq<R>, x: R, key: R -> K, i: nat, k: K)
    requires Having(WaveOf(s, key, i), key, k) == Nth(Having(s, key, k), i)
    ensures Having(WaveOf(s + [x], key, i), key, k) == Nth(Having(s + [x], key, k), i)
  {
    hide Having, WaveOf, Nth;
    WaveAppend(s, x, key, i);
    HavingAppend(s, x, key, k);
    if |Having(s, key, key(x))| == i {
      HavingAppend(WaveOf(s, key, i), x, key, k);
    } else {
      assert WaveOf(s + [x], key, i) == WaveOf(s, key, i);
    }
    if key(x) == k {
      NthAppend(Having(s, key, k), x, i);
    } else {
      assert Having(s + [x], key, k) == Having(s, key, k);
      assert Having(WaveOf(s, key, i), key, k) + [] == Having(WaveOf(s, key, i), key, k);
    }
  }

  lemma NthAppend<T>(s: seq<T>, x: T, i: nat)
    ensures Nth(s + [x], i) == Nth(s, i) + if |s| == i then [x] else []
  {
  }

  // ---------------------------------------------------------------- the loop

  /** How often each key has been seen. */
  ghost predicate Counts<R, K(!new)>(seen: map<K, nat>, s: seq<R>, key: R -> K) {
    forall k :: (if k in seen then seen[k] else 0) == |Having(s, key, k)|
  }

  ghost predicate WavesSoFar<R, K(!new)>(waves: seq<seq<R>>, s: seq<R>, key: R -> K) {
    && EnoughWaves(|waves|, s, key)
    && forall i :: 0 <= i < |waves| ==> waves[i] == WaveOf(s, key, i)
  }

  lemma CountOne<R, K(!new)>(seen: map<K, nat>, s: seq<R>, x: R, key: R -> K)
    requires Counts(seen, s, key)
    ensures Counts(seen[key(x) := (if key(x) in seen then seen[key(x)] else 0) + 1], s + [x], key)
  {
    hide Having;
    forall k ensures Having(s + [x], key, k) == Having(s, key, k) + if key(x) == k then [x] else [] {
      HavingAppend(s, x, key, k);
    }
  }

  /** Beyond the most repeated key there is nothing. */
  lemma {:induction false} WaveBeyond<R, K(!new)>(s: seq<R>, key: R -> K, n: nat)
    requires forall k :: |Having(s, key, k)| <= n
    ensures WaveOf(s, key, n) == []
    decreases |s|
  {
    if s != [] {
      var m := |s| - 1;
      var init, x := s[..m], s[m];
      assert s == init + [x];
      forall k ensures |Having(init, key, k)| <= n - (if key(x) == k then 1 else 0) {
        HavingAppend(init, x, key, k);
      }
      WaveBeyond(init, key, n);
      WaveAppend(init, x, key, n);
    }
  }

  /** The wave lists after one more record, a wave being opened for a key seen more often than any before. */
  function Place<R>(waves: seq<seq<R>>, i: nat, x: R): seq<seq<R>>
    requires i <= |waves|
  {
    if i == |waves| then waves + [[x]] else waves[i := waves[i] + [x]]
  }

  lemma PlaceOne<R, K(!new)>(waves: seq<seq<R>>, s: seq<R>, x: R, key: R -> K)
    requires WavesSoFar(waves, s, key)
    ensures |Having(s, key, key(x))| <= |waves|
    ensures WavesSoFar(Place(waves, |Having(s, key, key(x))|, x), s + [x], key)
  {
    hide Having, WaveOf;
    var n := |Having(s, key, key(x))|;
    var placed := Place(waves, n, x);
    forall i: nat ensures WaveOf(s + [x], key, i) == WaveOf(s, key, i) + if n == i then [x] else [] {
      WaveAppend(s, x, key, i);
    }
    forall k ensures |Having(s + [x], key, k)| == |Having(s, key, k)| + if key(x) == k then 1 else 0 {
      HavingAppend(s, x, key, k);
    }
    WaveBeyond(s, key, |waves|);
    if n == |waves| {
      assert |Having(s + [x], key, key(x))| == |placed|;
    } else {
      var k :| |Having(s, key, k)| == |waves|;
      assert |Having(s + [x], key, k)| == |waves|;
    }
  }

  lemma NoWaves<R, K(!new)>(key: R -> K)
    ensures WavesSoFar([], [], key) && Counts(map[], [], key)
  {
  }

  /** Splits a full-history payload into waves, in each of which a key occurs at most once. */
  method VintageWaves(records: seq<Row>, primaryKey: seq<Id>, sortKey: seq<Id>, show: Rendering) returns (waves: seq<seq<Row>>)
    ensures EnoughWaves(|waves|, SortBy(records, Arrival(primaryKey, show)), Columns(primaryKey))
    ensures forall i :: 0 <= i < |waves| ==>
              waves[i] == SortBy(WaveOf(SortBy(records, Arrival(primaryKey, show)), Columns(primaryKey), i), TableOrder(sortKey, show))
  {
    hide WavesSoFar, Counts, SortBy, Having, WaveOf;
    var key := Columns(primaryKey);
    var arrived := SortBy(records, Arrival(primaryKey, show));
    waves := [];
    var seen: map<Cells, nat> := map[];
    NoWaves(key);
    for j := 0 to |arrived|
      invariant WavesSoFar(waves, arrived[..j], key)
      invariant Counts(seen, arrived[..j], key)
    {
      var record := arrived[j];
      var pk := key(record);
      var i: nat := if pk in seen then seen[pk] else 0;
      assert arrived[..j + 1] == arrived[..j] + [record];
      assert i == |Having(arrived[..j], key, pk)| by { CountIs(seen, arrived[..j], key, pk); }
      PlaceOne(waves, arrived[..j], record, key);
      CountOne(seen, arrived[..j], record, key);
      ghost var before := waves;
      seen := seen[pk := i + 1];
      while |waves| <= i
        invariant |before| <= |waves| <= |before| + 1
        invariant waves == before || (|before| == i && waves == before + [[]])
      {
        waves := waves + [[]];
      }
      assert [] + [record] == [record];
      waves := waves[i := waves[i] + [record]];
      assert waves == Place(before, i, record);
    }
    assert arrived[..|arrived|] == arrived;
    SoFarMeans(waves, arrived, key);
    ghost var split := waves;
    for i := 0 to |waves|
      invariant |waves| == |split|
      invariant forall m :: 0 <= m < i ==> waves[m] == SortBy(split[m], TableOrder(sortKey, show))
      invariant forall m :: i <= m < |waves| ==> waves[m] == split[m]
    {
      waves := waves[i := SortBy(waves[i], TableOrder(sortKey, show))];
    }
  }

  lemma CountIs<R, K(!new)>(seen: map<K, nat>, s: seq<R>, key: R -> K, k: K)
    requires Counts(seen, s, key)
    ensures |Having(s, key, k)| == if k in seen then seen[k] else 0
  {
  }

  lemma SoFarMeans<R, K(!new)>(waves: seq<seq<R>>, s: seq<R>, key: R -> K)
    requires WavesSoFar(waves, s, key)
    ensures EnoughWaves(|waves|, s, key)
    ensures forall i :: 0 <= i < |waves| ==> waves[i] == WaveOf(s, key, i)
  {
  }
}

/** Exact real sums: over the values of a dictionary, over a list, and over an integer range. */
module Sums {

  /** The value a dictionary holds for a key, or zero where it holds none. */
  function At<K>(m: map<K, real>, k: K): real {
    if k in m then m[k] else 0.0
  }

  function Abs(x: real): real {
    if x < 0.0 then -x else x
  }

  function Min(x: real, y: real): real {
    if x <= y then x else y
  }

  function Max(x: real, y: real): real {
    if x <= y then y else x
  }

  /** The least integer that is at least x. */
  function Ceil(x: real): int {
    -((-x).Floor)
  }

  /** A product, named so that equal factors are recognised as giving equal products. */
  function Times(x: real, y: real): real {
    x * y
  }

  lemma Distribute(x: real, a: real, b: real)
    ensures Times(x, a + b) == Times(x, a) + Times(x, b)
  {
  }

  lemma TimesByZero(x: real)
    ensures Times(x, 0.0) == 0.0 && Times(0.0, x) == 0.0
  {
  }

  lemma Commute(x: real, y: real)
    ensures Times(x, y) == Times(y, x)
  {
  }

  lemma Associate(x: real, y: real, z: real)
    ensures Times(Times(x, y), z) == Times(x, Times(y, z))
  {
  }

  lemma NonNegative(x: real, y: real)
    requires x >= 0.0 && y >= 0.0
    ensures Times(x, y) >= 0.0
  {
  }

  lemma Square(x: real)
    ensures Times(x, x) >= 0.0
    ensures Times(x, x) == 0.0 <==> x == 0.0
  {
    if x > 0.0 {
      ProductPositive(x, x);
    } else if x < 0.0 {
      ProductPositive(-x, -x);
      assert Times(-x, -x) == Times(x, x);
    }
  }

  lemma QuotientTimes(x: real, y: real)
    requires y != 0.0
    ensures Times(x / y, y) == x
  {
  }

  lemma ProductPositive(x: real, y: real)
    requires x > 0.0 && y > 0.0
    ensures Times(x, y) > 0.0
  {
  }

  // ---------------------------------------------------------------- dictionaries

  /** The sum of a dictionary's values. Keys are taken in no particular order. */
  ghost function MapSum<K>(m: map<K, real>): real {
    if m == map[] then 0.0 else
    var k :| k in m;
    m[k] + MapSum(m - {k})
  }

  lemma {:induction false} MapSumRemove<K>(m: map<K, real>, k: K)
    requires k in m
    ensures MapSum(m) == m[k] + MapSum(m - {k})
    decreases |m|
  {
    var j :| j in m && MapSum(m) == m[j] + MapSum(m - {j});
    if j != k {
      MapSumRemove(m - {j}, k);
      MapSumRemove(m - {k}, j);
      assert m - {j} - {k} == m - {k} - {j};
    }
  }

  lemma MapSumInsert<K>(m: map<K, real>, k: K, v: real)
    requires k !in m
    ensures MapSum(m[k := v]) == MapSum(m) + v
  {
    MapSumRemove(m[k := v], k);
    assert m[k := v] - {k} == m;
  }

  lemma MapSumReplace<K>(m: map<K, real>, k: K, v: real)
    ensures MapSum(m[k := v]) == MapSum(m) - At(m, k) + v
  {
    MapSumRemove(m[k := v], k);
    if k in m {
      MapSumRemove(m, k);
      assert m[k := v] - {k} == m - {k};
    } else {
      assert m[k := v] - {k} == m;
    }
  }

  lemma {:induction false} MapSumAdd<K>(a: map<K, real>, b: map<K, real>, c: map<K, real>)
    requires a.Keys == b.Keys == c.Keys
    requires forall k :: k in c ==> c[k] == a[k] + b[k]
    ensures MapSum(c) == MapSum(a) + MapSum(b)
    decreases |c|
  {
    if c == map[] {
      assert a == map[] && b == map[];
    } else {
      var k :| k in c;
      MapSumRemove(a, k);
      MapSumRemove(b, k);
      MapSumRemove(c, k);
      MapSumAdd(a - {k}, b - {k}, c - {k});
    }
  }

  lemma {:induction false} MapSumScale<K>(x: real, b: map<K, real>, c: map<K, real>)
    requires b.Keys == c.Keys
    requires forall k :: k in c ==> c[k] == Times(x, b[k])
    ensures MapSum(c) == Times(x, MapSum(b))
    decreases |c|
  {
    hide Times;
    if c == map[] {
      assert b == map[];
      TimesByZero(x);
    } else {
      var k :| k in c;
      MapSumRemove(b, k);
      MapSumRemove(c, k);
      MapSumScale(x, b - {k}, c - {k});
      Distribute(x, b[k], MapSum(b - {k}));
    }
  }

  /** Entries outside the domain of `b` that are zero do not matter. */
  lemma {:induction false} MapSumDropZeros<K>(a: map<K, real>, b: map<K, real>)
    requires b.Keys <= a.Keys
    requires forall k :: k in a ==> a[k] == At(b, k)
    ensures MapSum(a) == MapSum(b)
    decreases |a|
  {
    if a == map[] {
      assert b == map[];
    } else {
      var k :| k in a;
      MapSumRemove(a, k);
      if k in b {
        MapSumRemove(b, k);
        MapSumDropZeros(a - {k}, b - {k});
      } else {
        MapSumDropZeros(a - {k}, b);
      }
    }
  }

  /** A dictionary cut into two parts. */
  lemma MapSumSplit<K>(m: map<K, real>, a: map<K, real>, b: map<K, real>)
    requires a.Keys !! b.Keys
    requires m.Keys == a.Keys + b.Keys
    requires forall k :: k in m ==> m[k] == if k in a then a[k] else b[k]
    ensures MapSum(m) == MapSum(a) + MapSum(b)
  {
    hide MapSum;
    var a0 := map k | k in m :: At(a, k);
    var b0 := map k | k in m :: At(b, k);
    MapSumAdd(a0, b0, m);
    MapSumDropZeros(a0, a);
    MapSumDropZeros(b0, b);
  }

  lemma {:induction false} MapSumMonotone<K>(a: map<K, real>, b: map<K, real>)
    requires a.Keys == b.Keys
    requires forall k :: k in a ==> a[k] <= b[k]
    ensures MapSum(a) <= MapSum(b)
    ensures MapSum(a) == MapSum(b) ==> a == b
    decreases |a|
  {
    if a == map[] {
      assert b == map[];
    } else {
      var k :| k in a;
      MapSumRemove(a, k);
      MapSumRemove(b, k);
      MapSumMonotone(a - {k}, b - {k});
      if MapSum(a) == MapSum(b) {
        assert a - {k} == b - {k} && a[k] == b[k];
        forall j | j in a ensures a[j] == b[j] {
          if j != k { assert a[j] == (a - {k})[j] == (b - {k})[j]; }
        }
      }
    }
  }

  /** A dictionary of positive values has a positive sum unless it is empty. */
  lemma MapSumPositive<K>(m: map<K, real>)
    requires forall k :: k in m ==> m[k] > 0.0
    ensures MapSum(m) >= 0.0
    ensures m != map[] ==> MapSum(m) > 0.0
  {
    var zero := map k | k in m :: 0.0;
    MapSumAdd(zero, zero, zero);
    MapSumMonotone(zero, m);
    if m != map[] {
      var k :| k in m;
      assert zero[k] != m[k];
    }
  }

  /** As many copies of a value as there are keys. */
  lemma {:induction false} MapSumConstant<K>(m: map<K, real>, v: real)
    requires forall k :: k in m ==> m[k] == v
    ensures MapSum(m) == Times(v, |m.Keys| as real)
    decreases |m|
  {
    hide Times;
    if m == map[] {
      TimesByZero(v);
    } else {
      hide MapSum;
      var k :| k in m;
      MapSumRemove(m, k);
      MapSumConstant(m - {k}, v);
      OneKeyLess(m, k);
      OneMore(v, |(m - {k}).Keys| as real);
    }
  }

  lemma OneKeyLess<K, V>(m: map<K, V>, k: K)
    requires k in m
    ensures |m.Keys| == |(m - {k}).Keys| + 1
  {
    assert (m - {k}).Keys == m.Keys - {k};
  }

  lemma OneMore(v: real, n: real)
    ensures Times(v, n + 1.0) == Times(v, n) + v
  {
  }

  // ---------------------------------------------------------------- lists

  /** The sum of a list, accumulated left to right as the loops do. */
  function Sum(s: seq<real>): real {
    if s == [] then 0.0 else Sum(s[..|s| - 1]) + s[|s| - 1]
  }

  lemma SumAppend(s: seq<real>, x: real)
    ensures Sum(s + [x]) == Sum(s) + x
  {
    assert (s + [x])[..|s|] == s;
  }

  lemma SumOne(x: real)
    ensures Sum([x]) == x
  {
    assert [x][..0] == [];
  }

  lemma {:induction false} SumScale(x: real, b: seq<real>, c: seq<real>)
    requires |b| == |c| && forall i :: 0 <= i < |c| ==> c[i] == Times(x, b[i])
    ensures Sum(c) == Times(x, Sum(b))
    decreases |c|
  {
    if c == [] {
      assert Times(x, 0.0) == 0.0;
    } else {
      hide Times;
      var n := |c| - 1;
      SumScale(x, b[..n], c[..n]);
      Distribute(x, Sum(b[..n]), b[n]);
    }
  }

  lemma {:induction false} SumLinear(a: seq<real>, x: real, b: seq<real>, c: seq<real>)
    requires |a| == |b| == |c|
    requires forall i :: 0 <= i < |c| ==> c[i] == a[i] + x * b[i]
    ensures Sum(c) == Sum(a) + x * Sum(b)
    decreases |c|
  {
    if c != [] {
      var n := |c| - 1;
      SumLinear(a[..n], x, b[..n], c[..n]);
    }
  }

  lemma {:induction false} SumMonotone(a: seq<real>, b: seq<real>)
    requires |a| == |b|
    requires forall i :: 0 <= i < |a| ==> a[i] <= b[i]
    ensures Sum(a) <= Sum(b)
    decreases |a|
  {
    if a != [] {
      SumMonotone(a[..|a| - 1], b[..|a| - 1]);
    }
  }

  lemma {:induction false} SumConstant(s: seq<real>, v: real)
    requires forall i :: 0 <= i < |s| ==> s[i] == v
    ensures Sum(s) == |s| as real * v
    decreases |s|
  {
    if s != [] {
      SumConstant(s[..|s| - 1], v);
    }
  }

  // ---------------------------------------------------------------- integer ranges

  /** The sum of f(lo), ..., f(hi - 1). */
  ghost function RangeSum(lo: int, hi: int, f: int -> real): real
    decreases hi - lo
  {
    if hi <= lo then 0.0 else RangeSum(lo, hi - 1, f) + f(hi - 1)
  }

  lemma {:induction false} RangeSumLinear(lo: int, hi: int, a: int -> real, x: real, b: int -> real, c: int -> real)
    requires forall j :: lo <= j < hi ==> c(j) == a(j) + x * b(j)
    ensures RangeSum(lo, hi, c) == RangeSum(lo, hi, a) + x * RangeSum(lo, hi, b)
    decreases hi - lo
  {
    if lo < hi {
      RangeSumLinear(lo, hi - 1, a, x, b, c);
    }
  }

  lemma {:induction false} RangeSumSame(lo: int, hi: int, a: int -> real, b: int -> real)
    requires forall j :: lo <= j < hi ==> a(j) == b(j)
    ensures RangeSum(lo, hi, a) == RangeSum(lo, hi, b)
    decreases hi - lo
  {
    if lo < hi {
      RangeSumSame(lo, hi - 1, a, b);
    }
  }

  lemma {:induction false} RangeSumSplit(lo: int, mid: int, hi: int, f: int -> real)
    requires lo <= mid <= hi
    ensures RangeSum(lo, hi, f) == RangeSum(lo, mid, f) + RangeSum(mid, hi, f)
    decreases hi - mid
  {
    if mid < hi {
      RangeSumSplit(lo, mid, hi - 1, f);
    }
  }

  lemma {:induction false} RangeSumZero(lo: int, hi: int, f: int -> real)
    requires forall j :: lo <= j < hi ==> f(j) == 0.0
    ensures RangeSum(lo, hi, f) == 0.0
    decreases hi - lo
  {
    if lo < hi {
      RangeSumZero(lo, hi - 1, f);
    }
  }

  /** Terms that vanish at both ends may be cut off. */
  lemma RangeSumTrim(lo: int, a: int, b: int, hi: int, f: int -> real)
    requires lo <= a <= b <= hi
    requires forall j :: lo <= j < a || b <= j < hi ==> f(j) == 0.0
    ensures RangeSum(lo, hi, f) == RangeSum(a, b, f)
  {
    RangeSumSplit(lo, a, hi, f);
    RangeSumSplit(a, b, hi, f);
    RangeSumZero(lo, a, f);
    RangeSumZero(b, hi, f);
  }

  /** A sum of non-negative terms is non-negative, and zero only when every term is. */
  lemma {:induction false} RangeSumNonNegative(lo: int, hi: int, f: int -> real)
    requires forall j :: lo <= j < hi ==> f(j) >= 0.0
    ensures RangeSum(lo, hi, f) >= 0.0
    ensures RangeSum(lo, hi, f) == 0.0 ==> forall j :: lo <= j < hi ==> f(j) == 0.0
    decreases hi - lo
  {
    if lo < hi {
      RangeSumNonNegative(lo, hi - 1, f);
    }
  }
}

/** Sums over finite maps: the SQL aggregates and the bank-wide totals of the model. */
module Sums {

  /** Some key of a non-empty map. */
  ghost function AnyKey(m: map<string, int>): (k: string)
    requires m != map[]
    ensures k in m
  {
    var k :| k in m; k
  }

  ghost function MapSum(m: map<string, int>): int {
    if m == map[] then 0
    else
      var k := AnyKey(m);
      m[k] + MapSum(m - {k})
  }

  /** The sum may be unrolled at any key, not only at the one the definition picks. */
  lemma {:induction false} MapSumRemove(m: map<string, int>, k: string)
    requires k in m
    ensures MapSum(m) == m[k] + MapSum(m - {k})
    decreases |m|
  {
    var j := AnyKey(m);
    if j != k {
      assert (m - {j}) - {k} == (m - {k}) - {j};
      MapSumRemove(m - {j}, k);
      MapSumRemove(m - {k}, j);
    }
  }

  lemma {:induction false} MapSumAdd(m: map<string, int>, k: string, v: int)
    requires k !in m
    ensures MapSum(m[k := v]) == MapSum(m) + v
  {
    MapSumRemove(m[k := v], k);
    assert m[k := v] - {k} == m;
  }

  lemma {:induction false} MapSumUpdate(m: map<string, int>, k: string, v: int)
    requires k in m
    ensures MapSum(m[k := v]) == MapSum(m) - m[k] + v
  {
    MapSumRemove(m, k);
    MapSumRemove(m[k := v], k);
    assert m[k := v] - {k} == m - {k};
  }

  lemma {:induction false} MapSumNonNegative(m: map<string, int>)
    requires forall k | k in m :: m[k] >= 0
    ensures MapSum(m) >= 0
    decreases |m|
  {
    if m != map[] {
      MapSumNonNegative(m - {AnyKey(m)});
    }
  }

  lemma SameButOne(small: map<string, int>, large: map<string, int>, k: string)
    requires k in small && k in large
    ensures small == large <==> small - {k} == large - {k} && small[k] == large[k]
  {
    if small - {k} == large - {k} && small[k] == large[k] {
      assert small == (small - {k})[k := small[k]];
      assert large == (large - {k})[k := large[k]];
    }
  }

  ghost predicate Within(small: map<string, int>, large: map<string, int>) {
    && small.Keys <= large.Keys && (forall k | k in small :: small[k] <= large[k])
    && forall k | k in large :: large[k] > 0
  }

  /** A map inside another, no entry larger: the sums agree exactly when the maps do. */
  lemma {:induction false} MapSumWithin(small: map<string, int>, large: map<string, int>)
    requires Within(small, large)
    ensures MapSum(small) <= MapSum(large) && (MapSum(small) == MapSum(large) <==> small == large)
    decreases |large|
  {
    if large == map[] {
      assert small == map[];
    } else {
      var k := AnyKey(large);
      MapSumWithin(small - {k}, large - {k});
      MapSumRemove(large, k);
      if k in small {
        MapSumRemove(small, k);
        SameButOne(small, large, k);
      } else {
        assert small - {k} == small;
      }
    }
  }

  lemma KeysWithin(small: map<string, int>, large: map<string, int>)
    requires small.Keys <= large.Keys
    ensures |small| <= |large|
  {
    KeysSubset(small.Keys, large.Keys);
  }

  lemma {:induction false} KeysSubset(x: set<string>, y: set<string>)
    requires x <= y
    ensures |x| <= |y|
  {
    if x != {} {
      var k :| k in x;
      KeysSubset(x - {k}, y - {k});
    }
  }

  lemma MergeSize(x: map<string, int>, y: map<string, int>)
    requires x.Keys !! y.Keys
    ensures |x + y| == |x| + |y|
  {
    assert (x + y).Keys == x.Keys + y.Keys;
  }

  lemma MergeWithout(x: map<string, int>, y: map<string, int>, k: string)
    requires x.Keys !! y.Keys && k in y
    ensures (x + y) - {k} == x + (y - {k})
  {
    var a, b := (x + y) - {k}, x + (y - {k});
    assert a.Keys == b.Keys;
    assert forall j | j in a :: a[j] == b[j];
  }

  /** Maps without a common key add up. */
  lemma {:induction false} MapSumMerge(x: map<string, int>, y: map<string, int>)
    requires x.Keys !! y.Keys
    ensures MapSum(x + y) == MapSum(x) + MapSum(y)
    decreases |y|
  {
    if y == map[] {
      assert x + y == x;
    } else {
      hide MapSum;
      var k := AnyKey(y);
      MergeWithout(x, y, k);
      MapSumMerge(x, y - {k});
      MapSumRemove(x + y, k);
      MapSumRemove(y, k);
    }
  }
}

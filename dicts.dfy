/** Python dictionaries as insertion-ordered association lists: `d[k] = v`
    keeps the position of an existing key and appends a new one, so iteration
    order is the order of first insertion. */
module Dicts {
  import opened Wrappers

  type Dict<K, V> = seq<(K, V)>

  predicate DistinctKeys<K(==), V>(d: Dict<K, V>) {
    forall i, j :: 0 <= i < j < |d| ==> d[i].0 != d[j].0
  }

  predicate HasKey<K(==), V>(d: Dict<K, V>, k: K) {
    exists i :: 0 <= i < |d| && d[i].0 == k
  }

  /** `d.get(k)`. */
  function Get<K(==), V>(d: Dict<K, V>, k: K): (r: Option<V>)
    ensures r.None? <==> !HasKey(d, k)
    ensures r.Some? ==> exists i :: 0 <= i < |d| && d[i] == (k, r.value)
  {
    if d == [] then None
    else if d[0].0 == k then Some(d[0].1)
    else
      assert forall i :: 1 <= i < |d| ==> d[i] == d[1..][i - 1];
      Get(d[1..], k)
  }

  /** `d[k] = v`. */
  function Put<K(==), V>(d: Dict<K, V>, k: K, v: V): (r: Dict<K, V>)
    ensures HasKey(d, k) ==> |r| == |d|
    ensures !HasKey(d, k) ==> r == d + [(k, v)]
    ensures forall i :: 0 <= i < |d| ==> r[i].0 == d[i].0
    ensures forall i :: 0 <= i < |d| && d[i].0 != k ==> r[i] == d[i]
  {
    if d == [] then [(k, v)]
    else if d[0].0 == k then [(k, v)] + d[1..]
    else
      assert forall i :: 1 <= i < |d| ==> d[i] == d[1..][i - 1];
      assert HasKey(d, k) <==> HasKey(d[1..], k);
      [d[0]] + Put(d[1..], k, v)
  }

  lemma {:induction false} GetPut<K, V>(d: Dict<K, V>, k: K, v: V, q: K)
    ensures Get(Put(d, k, v), q) == if q == k then Some(v) else Get(d, q)
  {
    if d != [] && d[0].0 != k {
      GetPut(d[1..], k, v, q);
    }
  }

  lemma {:induction false} PutKeepsDistinct<K, V>(d: Dict<K, V>, k: K, v: V)
    requires DistinctKeys(d)
    ensures DistinctKeys(Put(d, k, v))
  {
    var r := Put(d, k, v);
    if !HasKey(d, k) {
      assert forall i :: 0 <= i < |d| ==> d[i].0 != k;
    }
  }

  /** Keys in iteration order. */
  function Keys<K, V>(d: Dict<K, V>): (ks: seq<K>)
    ensures |ks| == |d| && forall i :: 0 <= i < |d| ==> ks[i] == d[i].0
  {
    seq(|d|, i requires 0 <= i < |d| => d[i].0)
  }

  /** `for r in rows: d[key(r)] = val(r)`, from an empty dict. */
  function Index<R, K(==), V>(rows: seq<R>, key: R -> K, val: R -> V): Dict<K, V> {
    if rows == [] then []
    else Put(Index(rows[..|rows| - 1], key, val), key(rows[|rows| - 1]), val(rows[|rows| - 1]))
  }

  /** The loop `for r in rows: d[key(r)] = val(r)` itself. */
  method IndexRows<R, K(==), V>(rows: seq<R>, key: R -> K, val: R -> V) returns (d: Dict<K, V>)
    ensures d == Index(rows, key, val)
  {
    d := [];
    var i := 0;
    while i < |rows|
      invariant 0 <= i <= |rows|
      invariant d == Index(rows[..i], key, val)
    {
      assert rows[..i + 1][..i] == rows[..i];
      d := Put(d, key(rows[i]), val(rows[i]));
      i := i + 1;
    }
    assert rows[..|rows|] == rows;
  }

  /** A key is bound exactly when some row has it, and to the value of the
      last such row. */
  lemma {:induction false} IndexGet<R, K, V>(rows: seq<R>, key: R -> K, val: R -> V, k: K)
    ensures Get(Index(rows, key, val), k).Some? <==> exists i :: 0 <= i < |rows| && key(rows[i]) == k
    ensures Get(Index(rows, key, val), k).Some? ==>
      exists i ::
        && 0 <= i < |rows|
        && key(rows[i]) == k
        && val(rows[i]) == Get(Index(rows, key, val), k).value
        && forall j :: i < j < |rows| ==> key(rows[j]) != k
  {
    if rows != [] {
      var init := rows[..|rows| - 1];
      var last := rows[|rows| - 1];
      var d := Index(init, key, val);
      assert Index(rows, key, val) == Put(d, key(last), val(last));
      GetPut(d, key(last), val(last), k);
      if key(last) == k {
        assert key(rows[|rows| - 1]) == k;
      } else {
        IndexGet(init, key, val, k);
        assert Get(Index(rows, key, val), k) == Get(d, k);
        LastRowOtherKey(rows, key, val, k, Get(d, k));
      }
    }
  }

  /** A last row with another key leaves the binding of `k` as the earlier rows made it. */
  lemma LastRowOtherKey<R, K, V>(rows: seq<R>, key: R -> K, val: R -> V, k: K, g: Option<V>)
    requires rows != [] && key(rows[|rows| - 1]) != k
    requires var init := rows[..|rows| - 1];
      && (g.Some? <==> exists i :: 0 <= i < |init| && key(init[i]) == k)
      && (g.Some? ==> exists i ::
            && 0 <= i < |init|
            && key(init[i]) == k
            && val(init[i]) == g.value
            && forall j :: i < j < |init| ==> key(init[j]) != k)
    ensures g.Some? <==> exists i :: 0 <= i < |rows| && key(rows[i]) == k
    ensures g.Some? ==>
      exists i ::
        && 0 <= i < |rows|
        && key(rows[i]) == k
        && val(rows[i]) == g.value
        && forall j :: i < j < |rows| ==> key(rows[j]) != k
  {
    var init := rows[..|rows| - 1];
    assert forall i :: 0 <= i < |init| ==> init[i] == rows[i];
    if g.Some? {
      var i :| 0 <= i < |init| && key(init[i]) == k && val(init[i]) == g.value
        && forall j :: i < j < |init| ==> key(init[j]) != k;
      assert key(rows[i]) == k && val(rows[i]) == g.value;
      forall j | i < j < |rows| ensures key(rows[j]) != k {
        if j < |init| {
          assert rows[j] == init[j];
        }
      }
    } else {
      forall i | 0 <= i < |rows| ensures key(rows[i]) != k {
        if i < |init| {
          assert rows[i] == init[i];
        }
      }
    }
  }

  /** Keys are distinct and each is the key of some row. */
  lemma {:induction false} IndexShape<R, K, V>(rows: seq<R>, key: R -> K, val: R -> V)
    ensures DistinctKeys(Index(rows, key, val))
    ensures forall i :: 0 <= i < |Index(rows, key, val)| ==>
      exists j :: 0 <= j < |rows| && key(rows[j]) == Index(rows, key, val)[i].0
  {
    if rows != [] {
      var init := rows[..|rows| - 1];
      var last := rows[|rows| - 1];
      var d := Index(init, key, val);
      IndexShape(init, key, val);
      PutKeepsDistinct(d, key(last), val(last));
      assert forall j :: 0 <= j < |init| ==> init[j] == rows[j];
      var r := Put(d, key(last), val(last));
      forall i | 0 <= i < |r| ensures exists j :: 0 <= j < |rows| && key(rows[j]) == r[i].0 {
        if i < |d| {
          var j :| 0 <= j < |init| && key(init[j]) == d[i].0;
          assert key(rows[j]) == r[i].0;
        } else {
          assert r[i].0 == key(last);
          assert key(rows[|rows| - 1]) == r[i].0;
        }
      }
    }
  }
}

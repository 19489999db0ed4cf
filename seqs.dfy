/** Building a list by visiting the items of another in order, as the
    importers' `for` loops over rows and columns do. */
module Seqs {
  import opened Wrappers

  /** The position of the first item satisfying `p`, as a query's `.first()`
      or a dictionary lookup by a unique field finds it. */
  function FirstIndex<T>(xs: seq<T>, p: T -> bool): (r: Option<nat>)
    ensures r.Some? ==> r.value < |xs| && p(xs[r.value]) && forall j :: 0 <= j < r.value ==> !p(xs[j])
    ensures r.None? ==> forall j :: 0 <= j < |xs| ==> !p(xs[j])
  {
    if xs == [] then None
    else if p(xs[0]) then Some(0)
    else
      assert forall j :: 1 <= j < |xs| ==> xs[j] == xs[1..][j - 1];
      match FirstIndex(xs[1..], p)
      case None => None
      case Some(i) => Some(i + 1)
  }

  /** Appending an item that satisfies `p` to a sequence with none makes
      it the first. */
  lemma FirstIndexSnoc<T>(xs: seq<T>, x: T, p: T -> bool)
    requires FirstIndex(xs, p).None? && p(x)
    ensures FirstIndex(xs + [x], p) == Some(|xs|)
  {
    var r := FirstIndex(xs + [x], p);
    assert forall j :: 0 <= j < |xs| ==> (xs + [x])[j] == xs[j];
    assert p((xs + [x])[|xs|]);
  }

  /** Replacing the first item satisfying `p` by another that satisfies it
      keeps its position first. */
  lemma FirstIndexUpdate<T>(xs: seq<T>, i: nat, y: T, p: T -> bool)
    requires FirstIndex(xs, p) == Some(i) && p(y)
    ensures FirstIndex(xs[i := y], p) == Some(i)
  {
    var r := FirstIndex(xs[i := y], p);
    assert forall j :: 0 <= j < i ==> xs[i := y][j] == xs[j];
    assert p(xs[i := y][i]);
  }

  /** The concatenation of `f(x)` over the items `x` of `xs`, in order. */
  function FlatMap<T, U>(xs: seq<T>, f: T -> seq<U>): (r: seq<U>)
    ensures xs == [] ==> r == []
  {
    if xs == [] then [] else FlatMap(xs[..|xs| - 1], f) + f(xs[|xs| - 1])
  }

  lemma FlatMapSnoc<T, U>(xs: seq<T>, x: T, f: T -> seq<U>)
    ensures FlatMap(xs + [x], f) == FlatMap(xs, f) + f(x)
  {
    assert (xs + [x])[..|xs + [x]| - 1] == xs;
  }

  /** Visiting two consecutive slices gives the results of the first
      followed by those of the second. */
  lemma {:induction false} FlatMapConcat<T, U>(a: seq<T>, b: seq<T>, f: T -> seq<U>)
    ensures FlatMap(a + b, f) == FlatMap(a, f) + FlatMap(b, f)
    decreases |b|
  {
    if b == [] {
      assert a + b == a;
    } else {
      var init := b[..|b| - 1];
      assert (a + b)[..|a + b| - 1] == a + init;
      assert (a + b)[|a + b| - 1] == b[|b| - 1];
      FlatMapConcat(a, init, f);
    }
  }

  /** An item is produced exactly when some visited item produces it. */
  lemma {:induction false} FlatMapMember<T, U>(xs: seq<T>, f: T -> seq<U>, u: U)
    ensures u in FlatMap(xs, f) <==> exists i :: 0 <= i < |xs| && u in f(xs[i])
  {
    if xs != [] {
      var init := xs[..|xs| - 1];
      var last := xs[|xs| - 1];
      FlatMapMember(init, f, u);
      assert FlatMap(xs, f) == FlatMap(init, f) + f(last);
      if u in FlatMap(init, f) {
        var i :| 0 <= i < |init| && u in f(init[i]);
        assert init[i] == xs[i];
      }
      if exists i :: 0 <= i < |xs| && u in f(xs[i]) {
        var i :| 0 <= i < |xs| && u in f(xs[i]);
        if i < |init| {
          assert init[i] == xs[i];
        }
      }
    }
  }

  /** The items of `xs` satisfying `p`, in order: a queryset's `.filter()`. */
  function Where<T(==)>(xs: seq<T>, p: T -> bool): (r: seq<T>)
    ensures |r| <= |xs|
    ensures forall i :: 0 <= i < |r| ==> r[i] in xs && p(r[i])
    ensures forall i :: 0 <= i < |xs| && p(xs[i]) ==> xs[i] in r
  {
    if xs == [] then []
    else
      var init := Where(xs[..|xs| - 1], p);
      assert forall i :: 0 <= i < |xs| - 1 ==> xs[i] == xs[..|xs| - 1][i];
      if p(xs[|xs| - 1]) then init + [xs[|xs| - 1]] else init
  }

  /** Filtering twice keeps the items satisfying both tests. */
  lemma {:induction false} WhereWhere<T>(xs: seq<T>, p: T -> bool, q: T -> bool)
    ensures Where(Where(xs, p), q) == Where(xs, x => p(x) && q(x))
  {
    if xs != [] {
      var init := xs[..|xs| - 1];
      var x := xs[|xs| - 1];
      WhereWhere(init, p, q);
      var a := Where(init, p);
      if p(x) {
        assert (a + [x])[..|a + [x]| - 1] == a;
      }
    }
  }
}

/**
 Arithmetic building blocks of the ranking engine: the sum and mean of a
 window of integer throughput samples, and the sum of a rate map over a
 finite set of component ids (the source sums over parent and child sets,
 whose iteration order is unspecified).
 */
module Sums {

  /** Sum of a sample window, accumulated front to back as a loop does. */
  function Sum(s: seq<int>): int
  {
    if s == [] then 0 else Sum(s[..|s| - 1]) + s[|s| - 1]
  }

  /** Arithmetic mean of a non-empty sample window. */
  function Mean(s: seq<int>): real
    requires |s| > 0
  {
    Sum(s) as real / |s| as real
  }

  /** A window whose samples lie in [lo, hi] sums to between lo·n and hi·n. */
  lemma {:induction false} SumBounds(s: seq<int>, lo: int, hi: int)
    requires forall i :: 0 <= i < |s| ==> lo <= s[i] <= hi
    ensures lo * |s| <= Sum(s) <= hi * |s|
  {
    if s != [] {
      SumBounds(s[..|s| - 1], lo, hi);
    }
  }

  /** The mean lies between the smallest and the largest sample. */
  lemma MeanBounds(s: seq<int>, lo: int, hi: int)
    requires |s| > 0
    requires forall i :: 0 <= i < |s| ==> lo <= s[i] <= hi
    ensures lo as real <= Mean(s) <= hi as real
  {
    SumBounds(s, lo, hi);
    var n := |s| as real;
    CastProduct(lo, |s|);
    CastProduct(hi, |s|);
    QuotientBounds(Sum(s) as real, n, lo as real, hi as real);
  }

  lemma CastProduct(a: int, b: int)
    ensures (a * b) as real == a as real * b as real
  {
  }

  /** lo·n <= a <= hi·n with n > 0 puts a / n in [lo, hi]. */
  lemma QuotientBounds(a: real, n: real, lo: real, hi: real)
    requires n > 0.0
    requires lo * n <= a <= hi * n
    ensures lo <= a / n <= hi
  {
  }

  /** A window of non-negative samples has a non-negative mean. */
  lemma {:induction false} MeanNonNegative(s: seq<int>)
    requires |s| > 0
    requires forall i :: 0 <= i < |s| ==> s[i] >= 0
    ensures Mean(s) >= 0.0
  {
    SumNonNegative(s);
  }

  lemma {:induction false} SumNonNegative(s: seq<int>)
    requires forall i :: 0 <= i < |s| ==> s[i] >= 0
    ensures Sum(s) >= 0
  {
    if s != [] {
      SumNonNegative(s[..|s| - 1]);
    }
  }

  /** The mean of a constant window is that constant. */
  lemma MeanOfConstant(s: seq<int>, v: int)
    requires |s| > 0
    requires forall i :: 0 <= i < |s| ==> s[i] == v
    ensures Mean(s) == v as real
  {
    MeanBounds(s, v, v);
  }

  /** A worked window: the samples 2, 4 and 6 average to 4. */
  lemma MeanExample()
    ensures Mean([2, 4, 6]) == 4.0
  {
    assert [2, 4, 6][..2] == [2, 4];
    assert [2, 4][..1] == [2];
    assert [2][..0] == [];
  }

  /** Some element of a non-empty set; the choice is fixed per set. */
  ghost function Pick<K>(s: set<K>): (x: K)
    requires s != {}
    ensures x in s
  {
    var x :| x in s; x
  }

  /** Sum of the rates of the ids in `ids`. */
  ghost function SumOver<K>(ids: set<K>, m: map<K, real>): real
    requires ids <= m.Keys
    decreases ids
  {
    if ids == {} then 0.0
    else
      var x := Pick(ids);
      m[x] + SumOver(ids - {x}, m)
  }

  /** Any element can be taken out first: the sum does not depend on order. */
  lemma {:induction false} SumOverRemove<K>(ids: set<K>, m: map<K, real>, x: K)
    requires ids <= m.Keys
    requires x in ids
    ensures SumOver(ids, m) == m[x] + SumOver(ids - {x}, m)
    decreases ids
  {
    var y := Pick(ids);
    if y != x {
      SumOverRemove(ids - {y}, m, x);
      SumOverRemove(ids - {x}, m, y);
      assert ids - {y} - {x} == ids - {x} - {y};
    }
  }

  /** A sum of non-negative rates is non-negative. */
  lemma {:induction false} SumOverNonNegative<K>(ids: set<K>, m: map<K, real>)
    requires ids <= m.Keys
    requires forall k :: k in ids ==> m[k] >= 0.0
    ensures SumOver(ids, m) >= 0.0
    decreases ids
  {
    if ids != {} {
      SumOverNonNegative(ids - {Pick(ids)}, m);
    }
  }

  /** With non-negative rates, each summand is at most the whole sum. */
  lemma SumOverAtLeastTerm<K>(ids: set<K>, m: map<K, real>, x: K)
    requires ids <= m.Keys
    requires forall k :: k in ids ==> m[k] >= 0.0
    requires x in ids
    ensures m[x] <= SumOver(ids, m)
  {
    SumOverRemove(ids, m, x);
    SumOverNonNegative(ids - {x}, m);
  }

  /** Dividing every rate by t divides the sum by t. */
  lemma {:induction false} SumOverScaled<K>(ids: set<K>, m: map<K, real>, scaled: map<K, real>, t: real)
    requires ids <= m.Keys && ids <= scaled.Keys
    requires t != 0.0
    requires forall k :: k in ids ==> scaled[k] == m[k] / t
    ensures SumOver(ids, scaled) == SumOver(ids, m) / t
    decreases ids
  {
    if ids != {} {
      var x := Pick(ids);
      SumOverScaled(ids - {x}, m, scaled, t);
      SumOverRemove(ids, m, x);
      assert SumOver(ids, scaled) == scaled[x] + SumOver(ids - {x}, scaled);
    }
  }

  /**
   A loop that fills `target` key by key keeps `base + (target - rest)`,
   with `rest` the keys still to visit: visiting `c` either copies its
   entry or, when `target` has none, leaves the map as it is.
   */
  lemma MapStep<K, V>(base: map<K, V>, target: map<K, V>, rest: set<K>, c: K)
    requires c in rest
    ensures c in target ==> (base + (target - rest))[c := target[c]] == base + (target - (rest - {c}))
    ensures c !in target ==> target - rest == target - (rest - {c})
  {
  }

  /** Adding a map to the empty map gives that map. */
  lemma EmptyUnion<K, V>(m: map<K, V>)
    ensures map[] + m == m
  {
  }
}

/** Sums of a measure over sequences. */
module Summation {

  function SumBy<T>(xs: seq<T>, f: T -> real): real {
    if xs == [] then 0.0 else SumBy(xs[..|xs| - 1], f) + f(xs[|xs| - 1])
  }

  lemma {:induction false} SumOfConcat<T>(xs: seq<T>, ys: seq<T>, f: T -> real)
    ensures SumBy(xs + ys, f) == SumBy(xs, f) + SumBy(ys, f)
  {
    if ys == [] {
      assert xs + ys == xs;
    } else {
      var n := |ys| - 1;
      SumOfConcat(xs, ys[..n], f);
      assert (xs + ys)[..|xs + ys| - 1] == xs + ys[..n];
    }
  }

  lemma SumOfOne<T>(x: T, f: T -> real)
    ensures SumBy([x], f) == f(x)
  {
    assert [x][..0] == [];
  }

  lemma SumOfThree<T>(a: T, b: T, c: T, f: T -> real)
    ensures SumBy([a, b, c], f) == f(a) + f(b) + f(c)
  {
    assert [a, b, c][..2] == [a, b] && [a, b][..1] == [a];
    SumOfOne(a, f);
  }

  /** A sum does not depend on the order of its terms. */
  lemma {:induction false} SumIgnoresOrder<T>(xs: seq<T>, ys: seq<T>, f: T -> real)
    requires multiset(xs) == multiset(ys)
    ensures SumBy(xs, f) == SumBy(ys, f)
    decreases |xs|
  {
    if xs == [] {
      assert |multiset(ys)| == 0 && ys == [];
    } else {
      var n := |xs| - 1;
      var last := xs[n];
      assert xs == xs[..n] + [last];
      assert last in multiset(ys);
      var k :| 0 <= k < |ys| && ys[k] == last;
      var rest := ys[..k] + ys[k + 1..];
      assert ys == ys[..k] + ([last] + ys[k + 1..]);
      assert multiset(xs[..n]) == multiset(xs) - multiset{last} == multiset(ys) - multiset{last} == multiset(rest);
      SumIgnoresOrder(xs[..n], rest, f);
      SumOfConcat(ys[..k], ys[k + 1..], f);
      SumOfConcat(ys[..k], [last] + ys[k + 1..], f);
      SumOfConcat([last], ys[k + 1..], f);
      SumOfOne(last, f);
    }
  }

  predicate Distinct<K(==)>(keys: seq<K>) {
    forall i, j :: 0 <= i < j < |keys| ==> keys[i] != keys[j]
  }

  /** The part of the sum whose terms carry a key. */
  function At<T, K(==)>(f: T -> real, keyOf: T -> K, key: K): T -> real {
    x => if keyOf(x) == key then f(x) else 0.0
  }

  function SumOverKeys<T, K(==)>(xs: seq<T>, f: T -> real, keyOf: T -> K, keys: seq<K>): real {
    if keys == [] then 0.0
    else SumOverKeys(xs, f, keyOf, keys[..|keys| - 1]) + SumBy(xs, At(f, keyOf, keys[|keys| - 1]))
  }

  lemma {:induction false} OneTermMore<T, K>(xs: seq<T>, f: T -> real, keyOf: T -> K, keys: seq<K>)
    requires xs != [] && Distinct(keys)
    ensures var last := xs[|xs| - 1];
            SumOverKeys(xs, f, keyOf, keys) ==
            SumOverKeys(xs[..|xs| - 1], f, keyOf, keys) + if keyOf(last) in keys then f(last) else 0.0
    decreases |keys|
  {
    if keys != [] {
      OneTermMore(xs, f, keyOf, keys[..|keys| - 1]);
    }
  }

  lemma {:induction false} NoTermsNoSum<T, K>(f: T -> real, keyOf: T -> K, keys: seq<K>)
    ensures SumOverKeys([], f, keyOf, keys) == 0.0
  {
    if keys != [] {
      NoTermsNoSum(f, keyOf, keys[..|keys| - 1]);
    }
  }

  /** Cutting a sum by keys that cover its terms loses nothing and counts nothing twice. */
  lemma {:induction false} KeysPartitionSum<T, K>(xs: seq<T>, f: T -> real, keyOf: T -> K, keys: seq<K>)
    requires Distinct(keys) && forall k :: 0 <= k < |xs| ==> keyOf(xs[k]) in keys
    ensures SumOverKeys(xs, f, keyOf, keys) == SumBy(xs, f)
  {
    if xs == [] {
      NoTermsNoSum(f, keyOf, keys);
    } else {
      OneTermMore(xs, f, keyOf, keys);
      KeysPartitionSum(xs[..|xs| - 1], f, keyOf, keys);
    }
  }
}

/**
 Sums of a measure over the values of a finite map, and how an update, a
 removal or a pointwise change moves them.
 */
module MapSums {
  ghost function Sum<K(!new), V(!new)>(m: map<K, V>, f: V -> nat): nat
    decreases |m|
  {
    if m == map[] then 0
    else
      var k :| k in m;
      assert |m - {k}| < |m| by { assert (m - {k}).Keys == m.Keys - {k}; assert |(m - {k}).Keys| < |m.Keys|; }
      f(m[k]) + Sum(m - {k}, f)
  }

  /** The measure of a number is the number. */
  function Whole(x: nat): nat {
    x
  }

  /** The recursion may peel off any key: the choice in the definition does not matter. */
  lemma {:induction false} SumRemove<K(!new), V(!new)>(m: map<K, V>, f: V -> nat, k: K)
    requires k in m
    ensures Sum(m, f) == f(m[k]) + Sum(m - {k}, f)
    decreases |m|
  {
    var j :| j in m && Sum(m, f) == f(m[j]) + Sum(m - {j}, f);
    if j != k {
      assert (m - {j}).Keys == m.Keys - {j};
      assert |(m - {j}).Keys| < |m.Keys|;
      assert (m - {k}).Keys == m.Keys - {k};
      assert |(m - {k}).Keys| < |m.Keys|;
      SumRemove(m - {j}, f, k);
      SumRemove(m - {k}, f, j);
      assert m - {j} - {k} == m - {k} - {j};
    }
  }

  /** What key `k` contributes to the sum. */
  ghost function At<K(!new), V(!new)>(m: map<K, V>, f: V -> nat, k: K): nat {
    if k in m then f(m[k]) else 0
  }

  lemma SumDelete<K(!new), V(!new)>(m: map<K, V>, f: V -> nat, k: K)
    ensures Sum(m - {k}, f) + At(m, f, k) == Sum(m, f)
  {
    if k in m {
      SumRemove(m, f, k);
    } else {
      assert m - {k} == m;
    }
  }

  lemma SumUpdate<K(!new), V(!new)>(m: map<K, V>, f: V -> nat, k: K, v: V)
    ensures Sum(m[k := v], f) + At(m, f, k) == Sum(m, f) + f(v)
  {
    SumRemove(m[k := v], f, k);
    assert m[k := v] - {k} == m - {k};
    SumDelete(m, f, k);
  }

  lemma SumAtLeast<K(!new), V(!new)>(m: map<K, V>, f: V -> nat, k: K)
    ensures At(m, f, k) <= Sum(m, f)
  {
    SumDelete(m, f, k);
  }

  /** The sum depends only on the keys and on the measure at each. */
  lemma {:induction false} SumPointwise<K(!new), V(!new)>(m: map<K, V>, n: map<K, V>, f: V -> nat)
    requires m.Keys == n.Keys && forall k :: k in m ==> f(m[k]) == f(n[k])
    ensures Sum(m, f) == Sum(n, f)
    decreases |m|
  {
    if m != map[] {
      var k :| k in m;
      assert (m - {k}).Keys == m.Keys - {k} == (n - {k}).Keys;
      assert |(m - {k}).Keys| < |m.Keys|;
      SumRemove(m, f, k);
      SumRemove(n, f, k);
      SumPointwise(m - {k}, n - {k}, f);
    } else {
      assert n == map[];
    }
  }

  /** A part of a map adds up to at most what the map does. */
  lemma {:induction false} SubmapSum<K(!new), E(!new)>(k: map<K, E>, m: map<K, E>, f: E -> nat)
    requires forall h :: h in k ==> h in m && k[h] == m[h]
    ensures Sum(k, f) <= Sum(m, f)
    decreases |k|
  {
    if k != map[] {
      var h :| h in k;
      assert (k - {h}).Keys == k.Keys - {h};
      assert |(k - {h}).Keys| < |k.Keys|;
      SumRemove(k, f, h);
      SumRemove(m, f, h);
      SubmapSum(k - {h}, m - {h}, f);
    }
  }
}

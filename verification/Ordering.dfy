/**
 Finite sets listed in a strict total order, as a database scan or a sort lists them.
 */
module Ordering {
  ghost predicate StrictOrder<K(!new)>(below: (K, K) -> bool) {
    && (forall a, b :: below(a, b) ==> !below(b, a))
    && (forall a, b, c :: below(a, b) && below(b, c) ==> below(a, c))
    && (forall a, b :: a != b ==> below(a, b) || below(b, a))
  }

  predicate IsFirst<K(==)>(k: K, keys: set<K>, below: (K, K) -> bool) {
    k in keys && forall j :: j in keys && j != k ==> below(k, j)
  }

  lemma {:induction false} FindFirst<K(!new)>(keys: set<K>, below: (K, K) -> bool) returns (k: K)
    requires StrictOrder(below) && keys != {}
    ensures IsFirst(k, keys, below)
    decreases |keys|
  {
    var x :| x in keys;
    k := x;
    if keys != {x} {
      var other := FindFirst(keys - {x}, below);
      k := if below(other, x) then other else x;
      forall j | j in keys && j != k
        ensures below(k, j)
      {
        assert j == x || j == other || below(other, j);
      }
    }
  }

  lemma FirstExists<K(!new)>(keys: set<K>, below: (K, K) -> bool)
    requires StrictOrder(below) && keys != {}
    ensures exists k :: IsFirst(k, keys, below)
  {
    var k := FindFirst(keys, below);
  }

  /** The least key. */
  function First<K(!new, ==)>(keys: set<K>, below: (K, K) -> bool): (k: K)
    requires StrictOrder(below) && keys != {}
    ensures IsFirst(k, keys, below)
  {
    FirstExists(keys, below);
    var k :| IsFirst(k, keys, below);
    k
  }

  predicate Ascending<K>(ks: seq<K>, below: (K, K) -> bool) {
    forall i, j :: 0 <= i < j < |ks| ==> below(ks[i], ks[j])
  }

  /** All the keys, in ascending order. */
  function InOrder<K(!new, ==)>(keys: set<K>, below: (K, K) -> bool): (r: seq<K>)
    requires StrictOrder(below)
    ensures (forall k :: k in keys <==> k in r) && |r| == |keys| && Ascending(r, below)
    decreases |keys|
  {
    if keys == {} then []
    else
      var k := First(keys, below);
      [k] + InOrder(keys - {k}, below)
  }
}

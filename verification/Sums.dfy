/** Sums over finite maps: the meaning of every byte counter in the model. */
module Sums {

  ghost function Sum<K>(m: map<K, nat>): nat
    decreases |m|
  {
    if m == map[] then 0
    else
      var k :| k in m;
      m[k] + Sum(m - {k})
  }

  /** The sum does not depend on the order in which the keys are taken. */
  lemma {:induction false} SumRemove<K>(m: map<K, nat>, k: K)
    requires k in m
    ensures Sum(m) == m[k] + Sum(m - {k})
    decreases |m|
  {
    var j :| j in m && Sum(m) == m[j] + Sum(m - {j});
    if j != k {
      SumRemove(m - {j}, k);
      SumRemove(m - {k}, j);
      assert m - {j} - {k} == m - {k} - {j};
    }
  }

  lemma SumInsert<K>(m: map<K, nat>, k: K, v: nat)
    requires k !in m
    ensures Sum(m[k := v]) == Sum(m) + v
  {
    SumRemove(m[k := v], k);
    assert m[k := v] - {k} == m;
  }

  /** A sub-map sums to no more than the whole map. */
  lemma {:induction false} SumSubset<K>(m: map<K, nat>, n: map<K, nat>)
    requires m.Keys <= n.Keys && forall k <- m :: m[k] == n[k]
    ensures Sum(m) <= Sum(n)
    decreases |m|
  {
    if m != map[] {
      var k :| k in m;
      SumRemove(m, k);
      SumRemove(n, k);
      SumSubset(m - {k}, n - {k});
    }
  }

  ghost function Restrict<K>(m: map<K, nat>, keys: set<K>): map<K, nat> {
    map k | k in m && k in keys :: m[k]
  }

  /** Bytes of a selection of keys. */
  ghost function SumOver<K>(m: map<K, nat>, keys: set<K>): nat {
    Sum(Restrict(m, keys))
  }

  lemma SumOverAdd<K>(m: map<K, nat>, keys: set<K>, k: K)
    requires k in m && k !in keys
    ensures SumOver(m, keys + {k}) == SumOver(m, keys) + m[k]
  {
    assert Restrict(m, keys + {k}) == Restrict(m, keys)[k := m[k]];
    SumInsert(Restrict(m, keys), k, m[k]);
  }

  lemma SumOverRemove<K>(m: map<K, nat>, keys: set<K>, k: K)
    requires k in m && k in keys
    ensures SumOver(m, keys - {k}) + m[k] == SumOver(m, keys)
  {
    SumOverAdd(m, keys - {k}, k);
    assert keys - {k} + {k} == keys;
  }

  /** Taking a key out of the map takes its share out of any selection. */
  lemma SumOverWithout<K>(m: map<K, nat>, keys: set<K>, k: K)
    requires k in m
    ensures SumOver(m, keys) == SumOver(m - {k}, keys) + if k in keys then m[k] else 0
  {
    if k in keys {
      SumRemove(Restrict(m, keys), k);
      assert Restrict(m, keys) - {k} == Restrict(m - {k}, keys);
    } else {
      assert Restrict(m, keys) == Restrict(m - {k}, keys);
    }
  }

  lemma {:induction false} SumOverUnion<K>(m: map<K, nat>, a: set<K>, b: set<K>)
    requires a !! b && b <= m.Keys
    ensures SumOver(m, a + b) == SumOver(m, a) + SumOver(m, b)
    decreases b
  {
    if b == {} {
      assert a + b == a && Restrict(m, b) == map[];
    } else {
      var k :| k in b;
      SumOverUnion(m, a, b - {k});
      SumOverRemove(m, b, k);
      SumOverRemove(m, a + b, k);
      assert a + b - {k} == a + (b - {k});
    }
  }

  lemma SumWithoutKeys<K>(m: map<K, nat>, gone: set<K>)
    requires gone <= m.Keys
    ensures Sum(m - gone) == Sum(m) - SumOver(m, gone)
  {
    SumOverUnion(m, gone, m.Keys - gone);
    assert gone + (m.Keys - gone) == m.Keys;
    assert Restrict(m, m.Keys) == m && Restrict(m, m.Keys - gone) == m - gone;
  }

  lemma SmallerSetMisses<K>(a: set<K>, b: set<K>)
    requires |a| <= |b| && a - b != {}
    ensures b - a != {}
  {
    assert |a| == |a * b| + |a - b| by {
      assert a == a * b + (a - b);
    }
    assert |b| == |a * b| + |b - a| by {
      assert b == a * b + (b - a);
    }
  }

  /** Nothing of the same number of keys outweighs a selection that dominates the rest. */
  lemma {:induction false} HeaviestSelection<K>(m: map<K, nat>, top: set<K>, s: set<K>)
    requires top <= m.Keys && s <= m.Keys && |s| <= |top|
    requires forall h, k :: h in top && k in m && k !in top ==> m[k] <= m[h]
    ensures SumOver(m, s) <= SumOver(m, top)
    decreases |s - top|
  {
    if s <= top {
      SumSubset(Restrict(m, s), Restrict(m, top));
    } else {
      var x :| x in s && x !in top;
      assert x in s - top;
      SmallerSetMisses(s, top);
      var y :| y in top - s;
      var s' := s - {x} + {y};
      SumOverRemove(m, s, x);
      SumOverAdd(m, s - {x}, y);
      assert |s'| == |s|;
      assert s' - top == s - top - {x};
      HeaviestSelection(m, top, s');
    }
  }
}

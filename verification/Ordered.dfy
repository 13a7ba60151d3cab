/** Looking up keys in an ordered container (std::map). */
module Ordered {
  import opened Common

  lemma {:induction false} LargestExists(s: set<nat>)
    requires s != {}
    ensures exists m :: m in s && forall x <- s :: x <= m
    decreases |s|
  {
    var y :| y in s;
    if s != {y} {
      assert s == (s - {y}) + {y};
      LargestExists(s - {y});
      var m :| m in s - {y} && forall x <- s - {y} :: x <= m;
      var n := if m >= y then m else y;
      forall x | x in s
        ensures x <= n
      {
        assert x == y || x in s - {y};
      }
      assert n in s;
    } else {
      assert forall x <- s :: x <= y;
    }
  }

  predicate Least(s: set<nat>, m: nat) {
    m in s && forall x <- s :: m <= x
  }

  lemma {:induction false} SmallestExists(s: set<nat>)
    requires s != {}
    ensures exists m :: Least(s, m)
    decreases |s|
  {
    var y :| y in s;
    if s == {y} {
      assert Least(s, y);
    } else {
      SmallestExists(s - {y});
      var m :| Least(s - {y}, m);
      assert forall x <- s :: x == y || x in s - {y};
      assert Least(s, if m <= y then m else y);
    }
  }

  /** std::map::lower_bound: the least key that is at least bound. */
  method LowerBound(keys: set<nat>, bound: nat) returns (key: Option<nat>)
    ensures key.None? ==> forall k <- keys :: k < bound
    ensures key.Some? ==> key.value in keys && key.value >= bound && forall k <- keys :: k >= bound ==> key.value <= k
  {
    var above := set k | k in keys && k >= bound;
    if above == {} {
      assert forall k <- keys :: k >= bound ==> k in above;
      return None;
    }
    SmallestExists(above);
    var k :| Least(above, k);
    assert forall j <- keys :: j >= bound ==> j in above;
    return Some(k);
  }

  /** std::prev of lower_bound: the greatest key below bound. */
  method Before(keys: set<nat>, bound: nat) returns (key: Option<nat>)
    ensures key.None? ==> forall k <- keys :: k >= bound
    ensures key.Some? ==> key.value in keys && key.value < bound && forall k <- keys :: k < bound ==> k <= key.value
  {
    var below := set k | k in keys && k < bound;
    if below == {} {
      assert forall k <- keys :: k < bound ==> k in below;
      return None;
    }
    LargestExists(below);
    var k :| k in below && forall x <- below :: x <= k;
    assert forall j <- keys :: j < bound ==> j in below;
    return Some(k);
  }
}

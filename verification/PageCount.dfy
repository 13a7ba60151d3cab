/** Which pages emptyCache may unmap: counting the free bytes of a page
    (csrc/small_allocator.cc:120-152). */
module PageCount {
  import opened Common
  import opened Tiling

  /** Bytes shared by [va, va + sz) and [lo, hi). */
  function Overlap(va: nat, sz: nat, lo: nat, hi: nat): nat {
    var a := if va > lo then va else lo;
    var b := if va + sz < hi then va + sz else hi;
    if b > a then b - a else 0
  }

  ghost predicate Within(x: nat, lo: nat, hi: nat) {
    lo <= x < hi
  }

  ghost function Interval(lo: nat, hi: nat): set<nat> {
    set x: nat | lo <= x < hi && Within(x, lo, hi)
  }

  lemma {:induction false} IntervalSize(lo: nat, hi: nat)
    requires lo <= hi
    ensures |Interval(lo, hi)| == hi - lo
    decreases hi - lo
  {
    if lo < hi {
      IntervalSize(lo, hi - 1);
      assert Interval(lo, hi) == Interval(lo, hi - 1) + {hi - 1};
    } else {
      assert Interval(lo, hi) == {};
    }
  }

  /** The bytes of [lo, hi) covered by those free ranges whose start is in part. */
  ghost function FreeBytes(free: map<nat, nat>, part: set<nat>, lo: nat, hi: nat): set<nat> {
    set x: nat | lo <= x < hi && Within(x, lo, hi) && exists b :: b in part && b in free && b <= x < b + free[b]
  }

  ghost predicate RangesDisjoint(free: map<nat, nat>) {
    forall b, c :: b in free && c in free && b < c ==> b + free[b] <= c
  }

  ghost predicate RangesApart(free: map<nat, nat>) {
    forall b, c :: b in free && c in free && b < c ==> b + free[b] < c
  }

  /** Taking one more range into account adds exactly its overlap with the page. */
  lemma FreeBytesStep(free: map<nat, nat>, part: set<nat>, v: nat, lo: nat, hi: nat)
    requires RangesDisjoint(free) && part <= free.Keys && v in free && v !in part && lo <= hi
    ensures |FreeBytes(free, part + {v}, lo, hi)| == |FreeBytes(free, part, lo, hi)| + Overlap(v, free[v], lo, hi)
  {
    var before := FreeBytes(free, part, lo, hi);
    var a := if v > lo then v else lo;
    var b := if v + free[v] < hi then v + free[v] else hi;
    var added := Interval(a, b);
    assert FreeBytes(free, part + {v}, lo, hi) == before + added;
    forall x | x in added
      ensures x !in before
    {
      assert forall c :: c in part && c in free ==> c < v || v < c;
    }
    if a <= b {
      IntervalSize(a, b);
    } else {
      assert added == {};
    }
  }

  lemma SubsetOfSameSize(a: set<nat>, b: set<nat>)
    requires a <= b && |a| == |b|
    ensures a == b
  {
    assert b == a + (b - a);
    assert |b - a| == 0;
  }

  /** A page is wholly free exactly when it lies inside one single free block. */
  lemma FullPageInOneBlock(free: map<nat, nat>, lo: nat, hi: nat)
    requires RangesApart(free) && lo < hi
    ensures |FreeBytes(free, free.Keys, lo, hi)| == hi - lo <==> exists b :: b in free && b <= lo && hi <= b + free[b]
  {
    var covered := FreeBytes(free, free.Keys, lo, hi);
    IntervalSize(lo, hi);
    if |covered| == hi - lo {
      SubsetOfSameSize(covered, Interval(lo, hi));
      assert lo in covered;
      var b :| b in free && b <= lo < b + free[b];
      var e := b + free[b];
      forall c | c in free
        ensures !(c <= e < c + free[c])
      {
        assert c < b || c == b || b < c;
      }
      assert e !in covered;
      assert e !in Interval(lo, hi);
    }
    if exists b :: b in free && b <= lo && hi <= b + free[b] {
      assert covered == Interval(lo, hi);
    }
  }
}

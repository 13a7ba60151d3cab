/** How many small pages no reclaiming can unmap: what emptyCache leaves mapped once every range
    that is not to stay has been freed (csrc/small_allocator.cc:120-152). */
module Reclaim {
  import opened Common
  import opened Tiling
  import opened Ranges
  import opened SmallPages
  import opened FreePages
  import R = Ranges

  /** Page p is not wholly below the high-water mark, or a range that stays touches it. */
  ghost predicate PageNeeded(base: nat, high_water: nat, stay: map<nat, nat>, p: nat) {
    At(base, p) + PAGE > base + high_water || exists k :: k in stay && Touches(base, p, k, stay[k])
  }

  ghost function NeededPages(base: nat, high_water: nat, stay: map<nat, nat>, mapped: seq<bool>): seq<bool> {
    seq(|mapped|, p requires 0 <= p < |mapped| => mapped[p] && PageNeeded(base, high_water, stay, p))
  }

  /** The kept ranges that stay when only the allocations in live do. Abandoned ranges always stay. */
  ghost function Staying(kept: map<nat, nat>, allocated_: map<nat, nat>, live: set<nat>): map<nat, nat> {
    map k | k in kept && (k in allocated_ ==> k in live) :: kept[k]
  }

  lemma FreePageNotNeeded(r: R.View, p: nat)
    requires Audited(r) && InFreeBlock(r.free_by_addr, r.base, p)
    ensures !PageNeeded(r.base, r.high_water, KeptOf(r.tiles), p)
  {
    var f :| f in r.free_by_addr && f <= At(r.base, p) && At(r.base, p) + PAGE <= f + r.free_by_addr[f];
    FreeTile(r, f);
    assert OpenShape(Seal);
    forall k | k in KeptOf(r.tiles)
      ensures !Touches(r.base, p, k, KeptOf(r.tiles)[k])
    {
      assert k < f || f < k;
    }
  }

  lemma UnneededPageFree(r: R.View, p: nat)
    requires Audited(r) && !PageNeeded(r.base, r.high_water, KeptOf(r.tiles), p)
    ensures InFreeBlock(r.free_by_addr, r.base, p)
  {
    assert OpenShape(Seal) && OpenBooks(Seal);
    var t, lo, hi, x := r.tiles, r.base, r.base + r.high_water, At(r.base, p);
    var d := HoldingFrom(t, lo, hi, lo, x);
    assert forall k <- KeptOf(t) :: !Touches(r.base, p, k, KeptOf(t)[k]);
    assert d !in KeptOf(t);
    var e := End(t, d);
    if e < x + PAGE {
      assert e in t;
      assert e in KeptOf(t) ==> Touches(r.base, p, e, KeptOf(t)[e]);
    }
    assert d in r.free_by_addr && r.free_by_addr[d] == t[d].size;
  }

  /** Counting fewer pages. */
  lemma {:induction false} CountLess(a: seq<bool>, b: seq<bool>)
    requires |a| == |b| && forall p :: 0 <= p < |a| && a[p] ==> b[p]
    ensures Count(a) <= Count(b)
    decreases |a|
  {
    if a != [] {
      CountLess(a[..|a| - 1], b[..|b| - 1]);
    }
  }

  lemma NeededAtMost(base: nat, high_water: nat, stay: map<nat, nat>, mapped: seq<bool>)
    ensures Count(NeededPages(base, high_water, stay, mapped)) <= Count(mapped)
  {
    CountLess(NeededPages(base, high_water, stay, mapped), mapped);
  }

  /** emptyCache unmaps no page that is needed. */
  lemma EmptyCacheKeepsNeeded(r: R.View, allocated_: map<nat, nat>, live: set<nat>, mapped: seq<bool>, mapped': seq<bool>)
    requires Audited(r) && |mapped| == |mapped'|
    requires forall p :: 0 <= p < |mapped| ==> (mapped'[p] <==> mapped[p] && !InFreeBlock(r.free_by_addr, r.base, p))
    ensures var stay := Staying(KeptOf(r.tiles), allocated_, live);
            NeededPages(r.base, r.high_water, stay, mapped') == NeededPages(r.base, r.high_water, stay, mapped)
  {
    var stay := Staying(KeptOf(r.tiles), allocated_, live);
    forall p | 0 <= p < |mapped| && mapped[p] && PageNeeded(r.base, r.high_water, stay, p)
      ensures mapped'[p]
    {
      assert forall k <- stay :: k in KeptOf(r.tiles) && KeptOf(r.tiles)[k] == stay[k];
      if InFreeBlock(r.free_by_addr, r.base, p) {
        FreePageNotNeeded(r, p);
      }
    }
  }

  /** Once everything not in live is freed, emptyCache leaves exactly the needed pages. */
  lemma EmptyCacheLeavesNeeded(r: R.View, live: set<nat>, mapped: seq<bool>)
    requires Audited(r) && r.allocated_.Keys <= live
    requires forall p :: 0 <= p < |mapped| && mapped[p] ==> !InFreeBlock(r.free_by_addr, r.base, p)
    ensures NeededPages(r.base, r.high_water, Staying(KeptOf(r.tiles), r.allocated_, live), mapped) == mapped
  {
    assert Staying(KeptOf(r.tiles), r.allocated_, live) == KeptOf(r.tiles);
    forall p | 0 <= p < |mapped| && mapped[p]
      ensures PageNeeded(r.base, r.high_water, KeptOf(r.tiles), p)
    {
      if !PageNeeded(r.base, r.high_water, KeptOf(r.tiles), p) {
        UnneededPageFree(r, p);
      }
    }
  }

  /** Freeing an allocation that is not to stay changes nothing. */
  lemma FreeKeepsStaying(kept: map<nat, nat>, allocated_: map<nat, nat>, live: set<nat>, p: nat)
    requires p in allocated_ && p !in live
    ensures Staying(kept - {p}, allocated_ - {p}, live) == Staying(kept, allocated_, live)
  {
  }
}

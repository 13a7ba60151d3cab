/** A small allocation that fails after it has taken a range abandons it: the range stays, and so do
    those of its pages that could be backed (csrc/small_allocator.cc:54-92). */
module Abandoned {
  import opened Common
  import opened Tiling
  import opened Ranges
  import opened SmallPages
  import opened Reclaim
  import opened Room
  import opened SmallAllocator
  import R = Ranges

  /** What stands when the allocations not in live are freed, with the pages mapped as they are. */
  ghost function StandingOf(r: R.View, mapped: seq<bool>, live: set<nat>, large: nat): Residue {
    Residue(Staying(KeptOf(r.tiles), r.allocated_, live), mapped, r.high_water, large)
  }

  /** Only the needed pages stay once everything else is reclaimed. */
  ghost function Reclaimed(left: Residue, base: nat): Residue {
    left.(pages := NeededPages(base, left.high_water, left.stay, left.pages))
  }

  lemma KeptApart(r: R.View, at: nat, size: nat, t: R.View, k: nat)
    requires Audited(r) && Taken(r, at, size, t) && k in KeptOf(r.tiles)
    ensures k + KeptOf(r.tiles)[k] <= at || at + size <= k
  {
    assert OpenShape(Seal);
    if !NoneFits(r.free_by_addr, size) {
      FreeTile(r, at);
      assert k < at || at < k;
    }
  }

  lemma NeededStill(base: nat, hw: nat, stay: map<nat, nat>, hw': nat, at: nat, size: nat, p: nat)
    requires hw' == if at + size > base + hw then at + size - base else hw
    requires at <= base + hw
    ensures PageNeeded(base, hw, stay, p) ==> PageNeeded(base, hw', stay[at := size], p) || at in stay
    ensures PageNeeded(base, hw', stay[at := size], p) ==> PageNeeded(base, hw, stay, p) || Touches(base, p, at, size)
  {
    if PageNeeded(base, hw, stay, p) && at !in stay {
      if At(base, p) + PAGE > base + hw {
        if At(base, p) + PAGE <= base + hw' {
          assert Touches(base, p, at, stay[at := size][at]);
        }
      } else {
        var k :| k in stay && Touches(base, p, k, stay[k]);
        assert k in stay[at := size] && stay[at := size][k] == stay[k];
      }
    }
    if PageNeeded(base, hw', stay[at := size], p) && At(base, p) + PAGE <= base + hw' {
      var k :| k in stay[at := size] && Touches(base, p, k, stay[at := size][k]);
      if k != at {
        assert k in stay && Touches(base, p, k, stay[k]);
      }
    }
  }

  lemma PagesAfter(r: R.View, at: nat, size: nat, t: R.View, mapped: seq<bool>, mapped': seq<bool>, stay: map<nat, nat>)
    requires Taken(r, at, size, t) && MoreMapped(mapped, mapped', r.base, at, size)
    requires at !in stay && t.high_water == (if at + size > r.base + r.high_water then at + size - r.base else r.high_water)
    requires at <= r.base + r.high_water
    ensures MoreMapped(NeededPages(r.base, r.high_water, stay, mapped),
                       NeededPages(r.base, t.high_water, stay[at := size], mapped'), r.base, at, size)
  {
    forall p | 0 <= p < |mapped|
      ensures mapped[p] && PageNeeded(r.base, r.high_water, stay, p) ==> PageNeeded(r.base, t.high_water, stay[at := size], p)
      ensures PageNeeded(r.base, t.high_water, stay[at := size], p) ==> PageNeeded(r.base, r.high_water, stay, p) || Touches(r.base, p, at, size)
      ensures Touches(r.base, p, at, size) ==> PageNeeded(r.base, t.high_water, stay[at := size], p)
    {
      NeededStill(r.base, r.high_water, stay, t.high_water, at, size, p);
      assert at in stay[at := size] && stay[at := size][at] == size;
    }
  }

  /** What a failed allocation leaves behind, seen once everything else is reclaimed. */
  lemma FailureAbandons(r: R.View, at: nat, size: nat, t: R.View, mapped: seq<bool>, mapped': seq<bool>, live: set<nat>, large: nat)
    requires Audited(r) && 0 < size && Taken(r, at, size, t) && MoreMapped(mapped, mapped', r.base, at, size)
    requires t.allocated_ == r.allocated_
    ensures AbandonedAt(Reclaimed(StandingOf(r, mapped, live, large), r.base),
                        Reclaimed(StandingOf(t, mapped', live, large), r.base), r.base, size, at)
  {
    var stay := Staying(KeptOf(r.tiles), r.allocated_, live);
    TakenIsNew(r, at, size, t);
    assert Staying(KeptOf(t.tiles), t.allocated_, live) == stay[at := size];
    forall k | k in stay
      ensures k + stay[k] <= at || at + size <= k
    {
      KeptApart(r, at, size, t, k);
    }
    PagesAfter(r, at, size, t, mapped, mapped', stay);
  }

  lemma TakenIsNew(r: R.View, at: nat, size: nat, t: R.View)
    requires Audited(r) && Taken(r, at, size, t)
    ensures at !in KeptOf(r.tiles) && at <= r.base + r.high_water
    ensures t.high_water == if at + size > r.base + r.high_water then at + size - r.base else r.high_water
  {
    assert OpenShape(Seal);
    if !NoneFits(r.free_by_addr, size) {
      FreeTile(r, at);
    }
  }
}

/** Which pages of a small allocator's reservation lie inside one free block
    (csrc/small_allocator.cc:120-152). */
module FreePages {
  import opened Common
  import opened Tiling
  import opened Ranges
  import opened SmallPages
  import opened PageCount
  import R = Ranges

  ghost function PageFreeBytes(free: map<nat, nat>, part: set<nat>, base: nat, p: nat): set<nat> {
    FreeBytes(free, part, At(base, p), At(base, p) + PAGE)
  }

  /** Page p lies inside one single free block. */
  ghost predicate InFreeBlock(free: map<nat, nat>, base: nat, p: nat) {
    exists b :: b in free && b <= At(base, p) && At(base, p) + PAGE <= b + free[b]
  }

  /** Free blocks are disjoint, and no two touch. */
  lemma FreeRangesApart(r: R.View)
    requires Audited(r)
    ensures RangesApart(r.free_by_addr) && RangesDisjoint(r.free_by_addr)
  {
    forall b, c | b in r.free_by_addr && c in r.free_by_addr && b < c
      ensures b + r.free_by_addr[b] < c
    {
      FreeTile(r, b);
      FreeTile(r, c);
      assert OpenShape(Seal);
      assert End(r.tiles, b) != c;
    }
  }

  lemma NothingCounted(free: map<nat, nat>, base: nat)
    ensures forall p {:trigger PageFreeBytes(free, free.Keys - free.Keys, base, p)} ::
              |PageFreeBytes(free, free.Keys - free.Keys, base, p)| == 0
  {
    forall p {:trigger PageFreeBytes(free, free.Keys - free.Keys, base, p)}
      ensures |PageFreeBytes(free, free.Keys - free.Keys, base, p)| == 0
    {
      assert PageFreeBytes(free, free.Keys - free.Keys, base, p) == {};
    }
  }

  lemma CountOneMore(free: map<nat, nat>, part: set<nat>, va: nat, base: nat)
    requires RangesDisjoint(free) && part <= free.Keys && va in free && va !in part
    ensures forall p {:trigger PageFreeBytes(free, part + {va}, base, p)} ::
              |PageFreeBytes(free, part + {va}, base, p)|
              == |PageFreeBytes(free, part, base, p)| + Overlap(va, free[va], At(base, p), At(base, p) + PAGE)
  {
    forall p {:trigger PageFreeBytes(free, part + {va}, base, p)}
      ensures |PageFreeBytes(free, part + {va}, base, p)|
              == |PageFreeBytes(free, part, base, p)| + Overlap(va, free[va], At(base, p), At(base, p) + PAGE)
    {
      FreeBytesStep(free, part, va, At(base, p), At(base, p) + PAGE);
    }
  }

  /** A page's counter reads 2 MB exactly when the page lies inside one single free block. */
  lemma FullPage(free: map<nat, nat>, base: nat, p: nat)
    requires RangesApart(free)
    ensures |PageFreeBytes(free, free.Keys, base, p)| == PAGE <==> InFreeBlock(free, base, p)
  {
    FullPageInOneBlock(free, At(base, p), At(base, p) + PAGE);
  }

  /** No allocated range touches a page inside a free block. */
  lemma FreePageUntouched(r: R.View, p: nat)
    requires Audited(r) && InFreeBlock(r.free_by_addr, r.base, p)
    ensures forall b <- r.allocated_ :: !Touches(r.base, p, b, r.allocated_[b])
  {
    var f :| f in r.free_by_addr && f <= At(r.base, p) && At(r.base, p) + PAGE <= f + r.free_by_addr[f];
    forall b | b in r.allocated_
      ensures !Touches(r.base, p, b, r.allocated_[b])
    {
      LiveAndFreeApart(r, b, f);
    }
  }

  lemma LiveAndFreeApart(r: R.View, b: nat, f: nat)
    requires Audited(r) && b in r.allocated_ && f in r.free_by_addr
    ensures b + r.allocated_[b] <= f || f + r.free_by_addr[f] <= b
  {
    LiveTile(r, b);
    FreeTile(r, f);
    assert OpenShape(Seal);
    assert b < f || b == f || f < b;
  }
}

/** SmallAllocator: best-fit sub-allocation inside one reservation, with pages backed on demand
    (csrc/small_allocator.cc). */
module SmallAllocator {
  import opened Common
  import opened Ordered
  import opened Tiling
  import opened Ranges
  import opened SmallPages
  import opened PageCount
  import opened FreePages
  import opened Parts
  import opened Pools
  import opened PhysicalMemory
  import opened Room
  import R = Ranges
  import G = SmallPages
  import D = CudaDriver

  datatype Outcome = Pointer(va: nat) | VaExhausted | OutOfMemory

  // ---- taking a range ------------------------------------------------------------------------

  /** Range [at, at + size) has been taken: from the best fitting free block, or from above the
      high-water mark if none fits. Until it is recorded it counts as abandoned. */
  ghost predicate Taken(r: R.View, at: nat, size: nat, r': R.View) {
    && KeptOf(r'.tiles) == KeptOf(r.tiles)[at := size] && at !in r.allocated_
    && at in r'.tiles && r'.tiles[at] == Tile(Abandoned, size)
    && r.base <= at && at + size <= r.base + r.size
    && if NoneFits(r.free_by_addr, size)
       then at == r.base + r.high_water && r' == Bump(r, size)
       else BestFit(r.free_by_addr, size, at) && at in r.tiles && size <= r.tiles[at].size && r' == Split(r, at, size)
  }

  /** The range is recorded as allocated, or stays abandoned. */
  ghost predicate Placed(r: R.View, at: nat, size: nat, r': R.View, recorded: bool) {
    exists t: R.View :: Taken(r, at, size, t) && r' == if recorded then Adopt(t, at) else t
  }

  /** What an allocation means, whichever way the range was found. */
  lemma PlacedMeans(r: R.View, at: nat, size: nat, r': R.View, recorded: bool)
    requires Audited(r) && Placed(r, at, size, r', recorded) && 0 < size
    ensures KeptOf(r'.tiles) == KeptOf(r.tiles)[at := size]
    ensures r'.allocated_ == if recorded then r.allocated_[at := size] else r.allocated_
    ensures at in r'.tiles && r'.tiles[at] == Tile(if recorded then Live else Abandoned, size)
    ensures BestFit(r.free_by_addr, size, at) || (NoneFits(r.free_by_addr, size) && at == r.base + r.high_water)
    ensures forall b <- r.allocated_ :: b + r.allocated_[b] <= at || at + size <= b
  {
    var t :| Taken(r, at, size, t) && r' == if recorded then Adopt(t, at) else t;
    if recorded {
      assert KeptOf(Relabel(t.tiles, at, Live)) == KeptOf(t.tiles);
    }
    forall b | b in r.allocated_
      ensures b + r.allocated_[b] <= at || at + size <= b
    {
      TakenApart(r, at, size, t, b);
    }
  }

  lemma TakenApart(r: R.View, at: nat, size: nat, t: R.View, b: nat)
    requires Audited(r) && Taken(r, at, size, t) && b in r.allocated_
    ensures b + r.allocated_[b] <= at || at + size <= b
  {
    LiveTile(r, b);
    if !NoneFits(r.free_by_addr, size) {
      FreeTile(r, at);
      LiveAndFreeApart(r, b, at);
    }
  }

  lemma NullIsNotAllocated(r: R.View)
    requires Audited(r)
    ensures 0 !in r.allocated_
  {
    if 0 in r.allocated_ {
      LiveTile(r, 0);
    }
  }

  lemma NotFree(r: R.View, va: nat)
    requires Audited(r) && va in r.tiles && !r.tiles[va].kind.Free?
    ensures va !in r.free_by_addr
  {
    if va in r.free_by_addr {
      FreeTile(r, va);
    }
  }

  // ---- one page -----------------------------------------------------------------------------

  ghost function SegmentOf(g: G.View, b: PhysicalBlock): D.Segment {
    D.Segment(b.handle, PAGE, g.base)
  }

  lemma PageMayBeMapped(d: D.State, place: Places, in_use: int, g: G.View, p: nat, b: PhysicalBlock, e: D.State)
    requires D.Sane(e).Sound? && Pages(SmallPart(d, place, g.base), in_use, g).Sound? && p < |g.mapped| && !g.mapped[p]
    requires e == d.(live := e.live) && b.handle in e.live && e.live[b.handle] == PAGE && b.handle !in e.mappedAt
    ensures D.MayMap(e, At(g.base, p), SegmentOf(g, b)) && At(g.base, p) !in e.maps
  {
    var s := SmallPart(d, place, g.base);
    SlotIsApart(s, in_use, g, p);
    PageInside(s, in_use, g, p);
    assert D.Inside(d.reserved, g.base, At(g.base, p), PAGE);
    OthersApart(e, g.base, At(g.base, p), PAGE);
    forall v | v in e.maps
      ensures v + e.maps[v].size <= At(g.base, p) || At(g.base, p) + PAGE <= v
    {
      if e.maps[v].region == g.base {
        assert v in s.maps;
      }
    }
  }

  lemma PageInside(s: Part, in_use: int, g: G.View, p: nat)
    requires Pages(s, in_use, g).Sound? && p < |g.mapped|
    ensures D.Inside(s.reserved, g.base, At(g.base, p), PAGE)
  {
    assert OpenPages(Seal);
  }

  lemma GrantSlot(s: Part, in_use: int, g: G.View, p: nat, devices: set<int>)
    requires Pages(s, in_use, g).Sound? && p < |g.mapped| && !g.mapped[p] && s.access.Keys <= s.maps.Keys
    ensures D.Grant(s.access[At(g.base, p) := {}], At(g.base, p), PAGE, devices) == s.access[At(g.base, p) := devices]
  {
    SlotIsApart(s, in_use, g, p);
    var at := At(g.base, p);
    var granted := D.Grant(s.access[at := {}], at, PAGE, devices);
    forall v | v in granted
      ensures granted[v] == s.access[at := devices][v]
    {
      if v != at {
        assert v in s.maps;
      }
    }
  }

  /** Taking a block, mapping it at page p and granting access changes exactly that slot. */
  lemma PageMapped(d: D.State, v: Manager, e: D.State, v': Manager, in_use: int, g: G.View, p: nat, b: PhysicalBlock, devices: set<int>)
    requires Pages(SmallPart(d, v.place, g.base), in_use, g).Sound? && p < |g.mapped| && !g.mapped[p]
    requires Handed(d, v, e, v', b, PAGE, SmallUse) && d.live.Keys == v.place.Keys
    requires At(g.base, p) !in e.maps && D.Sane(D.Mapped(e, At(g.base, p), SegmentOf(g, b))).Sound?
    ensures var f := D.Granted(D.Mapped(e, At(g.base, p), SegmentOf(g, b)), At(g.base, p), PAGE, devices);
            && SmallPart(f, v'.place, g.base) == WithSlot(SmallPart(d, v.place, g.base), g, p, b, devices)
            && RestPart(f, v'.place, g.base) == RestPart(d, v.place, g.base)
            && b.handle !in SmallPart(d, v.place, g.base).used
  {
    HandedSmall(d, v, e, v', b, g.base);
    MappedSmall(e, v'.place, At(g.base, p), SegmentOf(g, b));
    PageInside(SmallPart(d, v.place, g.base), in_use, g, p);
    var m := D.Mapped(e, At(g.base, p), SegmentOf(g, b));
    assert D.Inside(m.reserved, g.base, At(g.base, p), PAGE);
    GrantedIn(m, v'.place, g.base, At(g.base, p), PAGE, devices, g.base);
    GrantSlot(SmallPart(d, v.place, g.base), in_use, g, p, devices);
  }

  /** A reservation with no page mapped and no range handed out. */
  lemma FreshReservation(base: nat, n: nat, device: int, place: Places, mapped: seq<bool>, blocks: seq<PhysicalBlock>)
    requires base % PAGE == 0 && base > 0 && place == map[] && |mapped| == n == |blocks|
    requires forall p :: 0 <= p < n ==> !mapped[p]
    ensures var s := SmallPart(D.Reserved(D.EMPTY, base, n * PAGE), place, base);
            && Pages(s, 0, G.View(base, mapped, blocks, 0)).Sound?
            && Access(s.access, base, mapped, Devices(device, []), 0, {}).Sound?
  {
    CountNone(mapped);
  }

  lemma FreshRanges(base: nat, size: nat, mapped: seq<bool>)
    requires base % PAGE == 0 && base > 0
    ensures Audited(R.View(base, size, 0, map[], map[], 0, map[])) && Index(map[], map[]).Sound?
    ensures Backed(map[], base, mapped).Sound?
  {
  }

  class SmallAllocator {
    const device: int
    const drv: D.Driver
    const pmm: PhysicalMemoryManager
    const va_base: nat
    const va_size: nat
    const num_pages: nat

    var page_mapped: seq<bool>
    var page_blocks: seq<PhysicalBlock>
    var high_water: nat
    var free_by_addr: map<nat, nat>
    var free_by_size: SizeIndex
    var allocated_: map<nat, nat>
    var allocated_bytes: int
    var mapped_bytes: int
    var peer_devices: seq<int>

    /** What each range below the high-water mark is. */
    ghost var tiles: Tiles

    ghost function Ranges(): R.View
      reads this
    {
      R.View(va_base, va_size, high_water, free_by_addr, allocated_, allocated_bytes, tiles)
    }

    ghost function PageTable(): G.View
      reads this
    {
      G.View(va_base, page_mapped, page_blocks, mapped_bytes)
    }

    /** This allocator's part of the driver state, and everything else. */
    ghost function Mine(): Part
      reads pmm`place, drv`s
    {
      SmallPart(drv.s, pmm.place, va_base)
    }

    ghost function Rest(): Part
      reads pmm`place, drv`s
    {
      RestPart(drv.s, pmm.place, va_base)
    }

    /** What of the manager's counters this allocator leaves alone. */
    ghost function OtherUse(): (int, nat, nat)
      reads pmm`large_in_use_bytes, pmm`purge_count, pmm`total_purged_bytes
    {
      (pmm.large_in_use_bytes, pmm.purge_count, pmm.total_purged_bytes)
    }

    ghost function MayUse(): set<int>
      reads this
    {
      Devices(device, peer_devices)
    }

    ghost predicate PagesValid()
      reads this, pmm, drv
    {
      && pmm.drv == drv && pmm.Valid()
      && |page_mapped| == num_pages == |page_blocks| && va_size == num_pages * PAGE
      && Pages(Mine(), pmm.small_in_use_bytes, PageTable()).Sound?
      && Access(Mine().access, va_base, page_mapped, MayUse(), 0, {}).Sound?
    }

    ghost predicate RangesValid()
      reads this
    {
      Audited(Ranges()) && Index(free_by_addr, free_by_size).Sound?
    }

    ghost predicate Valid()
      reads this, pmm, drv
    {
      PagesValid() && RangesValid() && Backed(allocated_, va_base, page_mapped).Sound?
    }

    constructor (device: int, pmm: PhysicalMemoryManager, va_pool_size: nat)
      requires pmm.Valid() && pmm.drv.s == D.EMPTY && pmm.small_in_use_bytes == 0 && va_pool_size > 0
      modifies pmm.drv`s, pmm.drv`top
      ensures Valid() && this.device == device && this.pmm == pmm && drv == pmm.drv
      ensures va_size == RoundUp(va_pool_size, PAGE) && tiles == map[] && high_water == 0 && peer_devices == [] && allocated_ == map[]
      ensures drv.s == D.Reserved(D.EMPTY, va_base, va_size)
    {
      var size := RoundUp(va_pool_size, PAGE);
      var n := size / PAGE;
      this.device, this.drv, this.pmm := device, pmm.drv, pmm;
      va_size, num_pages := size, n;
      var mapped, blocks := seq(n, _ => false), seq(n, _ => PhysicalBlock(0, 0, -1));
      page_mapped, page_blocks := mapped, blocks;
      high_water, free_by_addr, free_by_size, allocated_ := 0, map[], map[], map[];
      allocated_bytes, mapped_bytes, peer_devices, tiles := 0, 0, [], map[];
      ghost var d, v := pmm.drv.s, pmm.View();
      var base := pmm.drv.MemAddressReserve(size, true);
      va_base := base.value;
      OtherKeeps(d, v, pmm.drv.s);
      PlacesAreLive(d, v);
      FreshReservation(base.value, n, device, v.place, mapped, blocks);
      FreshRanges(base.value, size, mapped);
    }

    /** setAccess: grant the device and its peers access to a freshly mapped range. */
    method SetAccess(va: nat, size: nat)
      requires drv.Valid() && D.Covered(drv.s.maps, va, size)
      modifies drv`s
      ensures drv.Valid() && drv.s == D.Granted(old(drv.s), va, size, MayUse())
    {
      var devices := {device} + set x | x in peer_devices;
      var ok := drv.MemSetAccess(va, size, devices, true);
    }

    /** The driver calls for one page: take a small block, map it and grant access. */
    method BackPage(p: nat) returns (blk: Option<PhysicalBlock>)
      requires PagesValid() && p < num_pages && !page_mapped[p]
      modifies pmm, drv`s, drv`used, drv`next
      ensures pmm.Valid() && Rest() == old(Rest()) && OtherUse() == old(OtherUse())
      ensures blk.None? ==> Mine() == old(Mine()) && pmm.small_in_use_bytes == old(pmm.small_in_use_bytes)
      ensures 0 <= pmm.SmallRoom() == old(pmm.SmallRoom()) - if blk.Some? then PAGE else 0
      ensures blk.None? && !drv.refuses ==> pmm.SmallRoom() < PAGE && drv.used + PAGE > drv.capacity
      ensures blk.Some? ==> blk.value.size == PAGE && blk.value.handle !in old(Mine()).used
                            && Mine() == WithSlot(old(Mine()), PageTable(), p, blk.value, MayUse())
                            && pmm.small_in_use_bytes == old(pmm.small_in_use_bytes) + PAGE
    {
      ghost var d0, v0, g := drv.s, pmm.View(), PageTable();
      blk := pmm.AllocSmallBlock();
      if blk.None? {
        return;
      }
      var b := blk.value;
      ghost var d1, v1 := drv.s, pmm.View();
      PlacesAreLive(d0, v0);
      PageMayBeMapped(d0, v0.place, v0.small_in_use_bytes, g, p, b, d1);
      var page_va := At(va_base, p);
      var mapped := drv.MemMap(page_va, PAGE, b.handle, va_base, true);
      MappedKeeps(d1, v1, page_va, SegmentOf(g, b));
      MappingCovers(drv.s.maps, page_va);
      PageMapped(d0, v0, d1, v1, v0.small_in_use_bytes, g, p, b, MayUse());
      SetAccess(page_va, PAGE);
      OtherKeeps(D.Mapped(d1, page_va, SegmentOf(g, b)), v1, drv.s);
    }

    /** Back page p and record it. */
    method MapPage(p: nat) returns (ok: bool)
      requires PagesValid() && p < num_pages && !page_mapped[p]
      modifies this`page_mapped, this`page_blocks, this`mapped_bytes, pmm, drv`s, drv`used, drv`next
      ensures PagesValid()
      ensures page_mapped == if ok then old(page_mapped)[p := true] else old(page_mapped)
      ensures Rest() == old(Rest()) && OtherUse() == old(OtherUse())
      ensures pmm.SmallRoom() + mapped_bytes == old(pmm.SmallRoom() + mapped_bytes)
      ensures 0 <= pmm.SmallRoom() == old(pmm.SmallRoom()) - if ok then PAGE else 0
      ensures !ok && !drv.refuses ==> pmm.SmallRoom() < PAGE && drv.used + PAGE > drv.capacity
    {
      ghost var s0, g, in_use := Mine(), PageTable(), pmm.small_in_use_bytes;
      var blk := BackPage(p);
      if blk.None? {
        return false;
      }
      FillSound(s0, in_use, g, p, blk.value, MayUse());
      FillKeepsAccess(s0.access, va_base, page_mapped, MayUse(), p);
      page_mapped := page_mapped[p := true];
      page_blocks := page_blocks[p := blk.value];
      mapped_bytes := mapped_bytes + PAGE;
      assert PageTable() == FillSlot(g, p, blk.value);
      ok := true;
    }

    lemma RoomIsNatural()
      requires PagesValid()
      ensures 0 <= pmm.SmallRoom()
    {
      HeldIsLive(drv.s, pmm.View());
      drv.UsedIsLive();
    }

    /** Back page p unless it is. */
    method EnsurePage(p: nat) returns (ok: bool)
      requires PagesValid() && p < num_pages
      modifies this`page_mapped, this`page_blocks, this`mapped_bytes, pmm, drv`s, drv`used, drv`next
      ensures PagesValid() && Rest() == old(Rest()) && OtherUse() == old(OtherUse())
      ensures page_mapped == if ok then old(page_mapped)[p := true] else old(page_mapped)
      ensures pmm.SmallRoom() + mapped_bytes == old(pmm.SmallRoom() + mapped_bytes)
      ensures 0 <= pmm.SmallRoom() == old(pmm.SmallRoom()) - if ok && !old(page_mapped)[p] then PAGE else 0
      ensures !ok ==> !page_mapped[p]
      ensures !ok && !drv.refuses ==> pmm.SmallRoom() < PAGE && drv.used + PAGE > drv.capacity
    {
      RoomIsNatural();
      if page_mapped[p] {
        return true;
      }
      ok := MapPage(p);
    }

    /** The loop of ensurePagesMapped, up to the first page that cannot be backed. */
    method EnsurePages(first: nat, end: nat) returns (ok: bool, ghost reached: nat)
      requires PagesValid() && first <= end <= num_pages
      modifies this`page_mapped, this`page_blocks, this`mapped_bytes, pmm, drv`s, drv`used, drv`next
      ensures PagesValid() && Rest() == old(Rest()) && OtherUse() == old(OtherUse())
      ensures pmm.SmallRoom() + mapped_bytes == old(pmm.SmallRoom() + mapped_bytes)
      ensures first <= reached <= end && (ok <==> reached == end)
      ensures BackedUpTo(old(page_mapped), page_mapped, first, reached)
      ensures 0 <= pmm.SmallRoom() == old(pmm.SmallRoom()) - PAGE * Unmapped(old(page_mapped), first, reached)
      ensures !ok ==> !old(page_mapped)[reached]
      ensures !ok && !drv.refuses ==> pmm.SmallRoom() < PAGE && drv.used + PAGE > drv.capacity
    {
      ghost var was, rest, large, room := page_mapped, Rest(), OtherUse(), pmm.SmallRoom();
      RoomIsNatural();
      for p := first to end
        invariant PagesValid() && Rest() == rest && OtherUse() == large
        invariant 0 <= pmm.SmallRoom() == room - PAGE * Unmapped(was, first, p)
        invariant BackedUpTo(was, page_mapped, first, p)
        invariant pmm.SmallRoom() + mapped_bytes == old(pmm.SmallRoom() + mapped_bytes)
      {
        BackedNext(was, page_mapped, first, p);
        ok := EnsurePage(p);
        if !ok {
          return false, p;
        }
      }
      return true, end;
    }

    /** Back every page that [start, start + size) touches. Without refusals this succeeds exactly if
        there is room for the pages that are missing. */
    method EnsurePagesMapped(start: nat, size: nat) returns (ok: bool)
      requires PagesValid() && va_base <= start && 0 < size && start + size <= va_base + va_size
      modifies this`page_mapped, this`page_blocks, this`mapped_bytes, pmm, drv`s, drv`used, drv`next
      ensures PagesValid() && Rest() == old(Rest()) && OtherUse() == old(OtherUse())
      ensures forall p :: 0 <= p < num_pages && old(page_mapped)[p] ==> page_mapped[p]
      ensures forall p :: 0 <= p < num_pages && !Touches(va_base, p, start, size) ==> page_mapped[p] == old(page_mapped)[p]
      ensures ok ==> forall p :: 0 <= p < num_pages && Touches(va_base, p, start, size) ==> page_mapped[p]
      ensures pmm.SmallRoom() + mapped_bytes == old(pmm.SmallRoom() + mapped_bytes)
      ensures ok ==> 0 <= pmm.SmallRoom() == old(pmm.SmallRoom()) - Backing(va_base, old(page_mapped), start, size)
      ensures !ok && !drv.refuses ==> drv.used + PAGE > drv.capacity
      ensures !drv.refuses ==> (ok <==> Backing(va_base, old(page_mapped), start, size) <= old(pmm.SmallRoom()))
    {
      var first := FirstPage(va_base, start);
      var last := FirstPage(va_base, start + size - 1);
      forall p | 0 <= p < num_pages
        ensures Touches(va_base, p, start, size) <==> first <= p <= last
      {
        TouchedPages(va_base, start, size, p);
      }
      ghost var was := page_mapped;
      ghost var reached;
      ok, reached := EnsurePages(first, last + 1);
      if !ok {
        UnmappedGrows(was, first, reached + 1, last + 1);
      }
    }

    // ---- the free list --------------------------------------------------------------------

    method AddFreeBlock(va: nat, size: nat)
      requires Index(free_by_addr, free_by_size).Sound? && va !in free_by_addr
      modifies this`free_by_addr, this`free_by_size
      ensures Index(free_by_addr, free_by_size).Sound? && free_by_addr == old(free_by_addr)[va := size]
    {
      InsertKeepsIndex(free_by_addr, free_by_size, va, size);
      free_by_addr := free_by_addr[va := size];
      free_by_size := Insert(free_by_size, va, size);
    }

    method RemoveFreeBlock(va: nat, size: nat)
      requires Index(free_by_addr, free_by_size).Sound? && va in free_by_addr && free_by_addr[va] == size
      modifies this`free_by_addr, this`free_by_size
      ensures Index(free_by_addr, free_by_size).Sound? && free_by_addr == old(free_by_addr) - {va}
    {
      EraseKeepsIndex(free_by_addr, free_by_size, va);
      free_by_addr := free_by_addr - {va};
      free_by_size := free_by_size[size := free_by_size[size] - {va}];
      if free_by_size[size] == {} {
        free_by_size := free_by_size - {size};
      }
    }

    /** Take the free block that ends at va off the free list, if there is one. */
    method TakePredecessor(va: nat) returns (start: nat, size: nat, ghost prev: Option<nat>)
      requires RangesValid() && va !in free_by_addr
      modifies this`free_by_addr, this`free_by_size
      ensures Index(free_by_addr, free_by_size).Sound?
      ensures IsPredecessor(old(free_by_addr), va, prev) && start == MergedStart(va, prev) && start + size == va
      ensures free_by_addr == old(free_by_addr) - {start}
    {
      start, size, prev := va, 0, None;
      assert free_by_addr - {va} == free_by_addr;
      var it := Before(free_by_addr.Keys, va);
      if it.None? {
        NoneBelow(Ranges(), va);
      } else {
        HighestBelow(Ranges(), va, it.value);
        if it.value + free_by_addr[it.value] == va {
          start, size, prev := it.value, free_by_addr[it.value], it;
          RemoveFreeBlock(start, size);
        }
      }
    }

    /** Take the free block that starts at end off the free list, if there is one. */
    method TakeSuccessor(end: nat) returns (size: nat)
      requires Index(free_by_addr, free_by_size).Sound?
      modifies this`free_by_addr, this`free_by_size
      ensures Index(free_by_addr, free_by_size).Sound?
      ensures free_by_addr == old(free_by_addr) - {end} && end + size == MergedEnd(old(free_by_addr), end)
    {
      size := 0;
      var it := LowerBound(free_by_addr.Keys, end);
      if it.Some? && it.value == end {
        size := free_by_addr[it.value];
        RemoveFreeBlock(it.value, size);
      }
    }

    /** Merge a freed range with the free blocks it touches. */
    method Coalesce(va: nat, size: nat)
      requires RangesValid() && va in tiles && tiles[va] == Tile(Abandoned, size)
      modifies this`free_by_addr, this`free_by_size, this`tiles
      ensures RangesValid() && KeptOf(tiles) == KeptOf(old(tiles)) - {va}
    {
      ghost var r := Ranges();
      NotFree(r, va);
      var merged_va, before, prev := TakePredecessor(va);
      var after := TakeSuccessor(va + size);
      var merged_size := before + size + after;
      AddFreeBlock(merged_va, merged_size);
      tiles := Fuse(tiles, merged_va, merged_size);
      MergedSound(r, va, prev, merged_va, merged_size, Ranges());
    }

    method Free(ptr: nat) returns (ok: bool)
      requires Valid()
      modifies this`free_by_addr, this`free_by_size, this`allocated_, this`allocated_bytes, this`tiles
      ensures Valid()
      ensures ok <==> ptr == 0 || ptr in old(allocated_)
      ensures ptr == 0 || !ok ==> Ranges() == old(Ranges())
      ensures ptr in old(allocated_) ==> allocated_ == old(allocated_) - {ptr} && KeptOf(tiles) == KeptOf(old(tiles)) - {ptr}
    {
      NullIsNotAllocated(Ranges());
      if ptr == 0 {
        return true;
      }
      if ptr !in allocated_ {
        return false;
      }
      BackedRemove(allocated_, va_base, page_mapped, ptr);
      Release(ptr);
      ok := true;
    }

    method Release(ptr: nat)
      requires RangesValid() && ptr in allocated_
      modifies this`free_by_addr, this`free_by_size, this`allocated_, this`allocated_bytes, this`tiles
      ensures RangesValid()
      ensures allocated_ == old(allocated_) - {ptr} && KeptOf(tiles) == KeptOf(old(tiles)) - {ptr}
    {
      ghost var r := Ranges();
      ForgetSound(r, ptr);
      var size := allocated_[ptr];
      allocated_ := allocated_ - {ptr};
      allocated_bytes := allocated_bytes - size;
      tiles := Relabel(tiles, ptr, Abandoned);
      assert Ranges() == Forget(r, ptr);
      Coalesce(ptr, size);
    }

    /** Steps 1 and 2 of allocate: best fit from the free list, else bump the high-water mark. */
    method TakeRange(size: nat) returns (result: Option<nat>)
      requires RangesValid() && 0 < size && size % ALIGN == 0
      modifies this`free_by_addr, this`free_by_size, this`high_water, this`tiles
      ensures result.None? <==> NoneFits(old(free_by_addr), size) && old(high_water) + size > va_size
      ensures result.None? ==> Ranges() == old(Ranges())
      ensures result.Some? ==> Taken(old(Ranges()), result.value, size, Ranges())
      ensures RangesValid()
    {
      ghost var r := Ranges();
      var it := LowerBound(free_by_size.Keys, size);
      if it.Some? {
        result := TakeFromBucket(size, it.value);
      } else {
        NoBucketFits(free_by_addr, free_by_size, size);
        if high_water + size > va_size {
          return None;
        }
        BumpSound(r, size);
        result := Some(va_base + high_water);
        high_water := high_water + size;
        tiles := tiles[result.value := Tile(Abandoned, size)];
        assert Ranges() == Bump(r, size);
      }
    }

    method TakeFromBucket(size: nat, blk_size: nat) returns (result: Option<nat>)
      requires RangesValid() && 0 < size <= blk_size && size % ALIGN == 0
      requires blk_size in free_by_size && forall k <- free_by_size :: k >= size ==> blk_size <= k
      modifies this`free_by_addr, this`free_by_size, this`tiles
      ensures result.Some? && RangesValid() && BestFit(old(free_by_addr), size, result.value)
      ensures Taken(old(Ranges()), result.value, size, Ranges())
    {
      ghost var r := Ranges();
      BucketNotEmpty(free_by_addr, free_by_size, blk_size);
      SmallestExists(free_by_size[blk_size]);
      var va: nat :| Least(free_by_size[blk_size], va);
      BucketIsBestFit(free_by_addr, free_by_size, size, blk_size, va);
      SplitSound(r, va, size);
      RemoveFreeBlock(va, blk_size);
      if blk_size > size {
        AddFreeBlock(va + size, blk_size - size);
      }
      tiles := Carve(tiles, va, Tile(Abandoned, size));
      assert Ranges() == Split(r, va, size);
      result := Some(va);
    }

    /** Steps 1 to 3 of allocate: take a range and back its pages. */
    method TakeBacked(size: nat) returns (result: Option<nat>, ok: bool)
      requires Valid() && 0 < size && size % ALIGN == 0
      modifies this`free_by_addr, this`free_by_size, this`high_water, this`tiles
      modifies this`page_mapped, this`page_blocks, this`mapped_bytes, pmm, drv`s, drv`used, drv`next
      ensures Valid() && Rest() == old(Rest()) && OtherUse() == old(OtherUse())
      ensures result.None? <==> NoneFits(old(free_by_addr), size) && old(high_water) + size > va_size
      ensures result.None? ==> Ranges() == old(Ranges()) && page_mapped == old(page_mapped) && !ok
      ensures result.Some? ==> Taken(old(Ranges()), result.value, size, Ranges())
      ensures result.Some? ==> MoreMapped(old(page_mapped), page_mapped, va_base, result.value, size)
      ensures ok ==> forall p :: 0 <= p < num_pages && Touches(va_base, p, result.value, size) ==> page_mapped[p]
      ensures pmm.SmallRoom() + mapped_bytes == old(pmm.SmallRoom() + mapped_bytes)
      ensures result.Some? && !ok && !drv.refuses ==> drv.used + PAGE > drv.capacity
      ensures !drv.refuses ==> (ok <==> Fits(old(Ranges()), old(page_mapped), old(pmm.SmallRoom()), size))
    {
      ghost var v, mapped, room := Ranges(), page_mapped, pmm.SmallRoom();
      result := TakeRange(size);
      if result.None? {
        NoChoice(v, mapped, room, size);
        return result, false;
      }
      ok := EnsurePagesMapped(result.value, size);
      ChoiceDecides(v, mapped, room, size, result.value);
      BackedMore(allocated_, va_base, mapped, page_mapped);
    }

    /** Take the best range for sz bytes, the size rounded up to 512, back its pages and record it. If a
        page cannot be backed the range is abandoned. Without refusals this succeeds exactly if the
        request fits. */
    method Allocate(size: nat) returns (r: Outcome, ghost at: nat, ghost sz: nat)
      requires Valid()
      modifies this`free_by_addr, this`free_by_size, this`high_water, this`tiles, this`allocated_, this`allocated_bytes
      modifies this`page_mapped, this`page_blocks, this`mapped_bytes, pmm, drv`s, drv`used, drv`next
      ensures Valid() && Rest() == old(Rest()) && OtherUse() == old(OtherUse())
      ensures sz % ALIGN == 0 && size <= sz && 0 < sz < (if size > 1 then size else 1) + ALIGN && sz == AlignedSize(size)
      ensures r.VaExhausted? <==> NoneFits(old(free_by_addr), sz) && old(high_water) + sz > va_size
      ensures r.VaExhausted? ==> Ranges() == old(Ranges()) && page_mapped == old(page_mapped)
      ensures !r.VaExhausted? ==> Placed(old(Ranges()), at, sz, Ranges(), r.Pointer?)
                                  && MoreMapped(old(page_mapped), page_mapped, va_base, at, sz)
      ensures r.Pointer? ==> r.va == at && at in allocated_ && allocated_[at] == sz
                             && forall p :: 0 <= p < num_pages && Touches(va_base, p, at, sz) ==> page_mapped[p]
      ensures pmm.SmallRoom() + mapped_bytes == old(pmm.SmallRoom() + mapped_bytes)
      ensures r.OutOfMemory? && !drv.refuses ==> drv.used + PAGE > drv.capacity
      ensures !drv.refuses ==> (r.Pointer? <==> Fits(old(Ranges()), old(page_mapped), old(pmm.SmallRoom()), sz))
    {
      var aligned := AlignedSize(size);
      sz := aligned;
      var result, ok := TakeBacked(aligned);
      at := 0;
      if result.None? {
        return VaExhausted, at, sz;
      }
      at := result.value;
      assert Taken(old(Ranges()), at, sz, Ranges());
      if !ok {
        return OutOfMemory, at, sz;
      }
      Record(result.value, aligned);
      r := Pointer(result.value);
    }

    /** Step 4 of allocate. */
    method Record(result: nat, size: nat)
      requires RangesValid() && Backed(allocated_, va_base, page_mapped).Sound?
      requires result in tiles && tiles[result] == Tile(Abandoned, size)
      requires forall p :: 0 <= p < |page_mapped| && Touches(va_base, p, result, size) ==> page_mapped[p]
      modifies this`allocated_, this`allocated_bytes, this`tiles
      ensures RangesValid() && Backed(allocated_, va_base, page_mapped).Sound?
      ensures result in old(tiles) && Ranges() == Adopt(old(Ranges()), result)
    {
      ghost var t := Ranges();
      AdoptSound(t, result);
      BackedAdd(allocated_, va_base, page_mapped, result, size);
      allocated_ := allocated_[result := size];
      allocated_bytes := allocated_bytes + size;
      tiles := Relabel(tiles, result, Live);
      assert Ranges() == Adopt(t, result);
    }

    // ---- emptyCache -------------------------------------------------------------------------

    /** Add what free range [va, va + sz) covers of each page. */
    method CountRange(va: nat, sz: nat, counts: seq<nat>) returns (page_free_bytes: seq<nat>)
      requires |counts| == num_pages && va_base <= va
      ensures |page_free_bytes| == num_pages
      ensures forall p :: 0 <= p < num_pages ==>
                page_free_bytes[p] == counts[p] + Overlap(va, sz, At(va_base, p), At(va_base, p) + PAGE)
    {
      page_free_bytes := counts;
      var p := FirstPage(va_base, va);
      var end := va + sz;
      while p < num_pages
        invariant |page_free_bytes| == num_pages && FirstPage(va_base, va) <= p
        invariant forall q :: p <= q < num_pages ==> page_free_bytes[q] == counts[q]
        invariant forall q :: 0 <= q < p && q < num_pages ==>
                    page_free_bytes[q] == counts[q] + Overlap(va, sz, At(va_base, q), At(va_base, q) + PAGE)
      {
        var page_start := At(va_base, p);
        var page_end := page_start + PAGE;
        if page_start >= end {
          break;
        }
        var overlap_start := if va > page_start then va else page_start;
        var overlap_end := if end < page_end then end else page_end;
        if overlap_end > overlap_start {
          page_free_bytes := page_free_bytes[p := page_free_bytes[p] + (overlap_end - overlap_start)];
        }
        p := p + 1;
      }
    }

    /** The free bytes of every page, summed over the free list. */
    method CountFreeBytes() returns (page_free_bytes: seq<nat>)
      requires RangesValid()
      ensures |page_free_bytes| == num_pages
      ensures forall p :: 0 <= p < num_pages ==>
                page_free_bytes[p] == |PageFreeBytes(free_by_addr, free_by_addr.Keys, va_base, p)|
    {
      page_free_bytes := seq(num_pages, _ => 0);
      var todo := free_by_addr.Keys;
      FreeRangesApart(Ranges());
      NothingCounted(free_by_addr, va_base);
      while todo != {}
        invariant todo <= free_by_addr.Keys && |page_free_bytes| == num_pages
        invariant forall p :: 0 <= p < num_pages ==>
                    page_free_bytes[p] == |PageFreeBytes(free_by_addr, free_by_addr.Keys - todo, va_base, p)|
        decreases todo
      {
        var va :| va in todo;
        FreeTile(Ranges(), va);
        page_free_bytes := CountRange(va, free_by_addr[va], page_free_bytes);
        CountOneMore(free_by_addr, free_by_addr.Keys - todo, va, va_base);
        assert free_by_addr.Keys - todo + {va} == free_by_addr.Keys - (todo - {va});
        todo := todo - {va};
      }
      assert free_by_addr.Keys - {} == free_by_addr.Keys;
    }

    /** The driver calls for one page: unmap it and give its block back to the manager. */
    method UnbackPage(p: nat, blk: PhysicalBlock)
      requires PagesValid() && p < num_pages && page_mapped[p] && blk == page_blocks[p]
      modifies pmm, drv`s
      ensures pmm.Valid() && Mine() == WithoutSlot(old(Mine()), PageTable(), p, blk.handle) && Rest() == old(Rest())
      ensures pmm.small_in_use_bytes == old(pmm.small_in_use_bytes) - PAGE
      ensures OtherUse() == old(OtherUse())
    {
      ghost var d, v, g, s := drv.s, pmm.View(), PageTable(), Mine();
      SlotOf(s, v.small_in_use_bytes, g, p);
      var page_va := At(va_base, p);
      UnmappedSmall(d, v.place, page_va, va_base);
      UnmappedKeeps(d, v, page_va);
      drv.MemUnmap(page_va, PAGE);
      pmm.FreeSmallBlock(blk);
      ReturnedTo(drv.s.live, v.place, pmm.place, blk.handle, SmallUse);
    }

    /** Unmap page p and record it. */
    method UnmapPage(p: nat)
      requires PagesValid() && p < num_pages && page_mapped[p]
      modifies this`page_mapped, this`page_blocks, this`mapped_bytes, pmm, drv`s
      ensures PagesValid() && page_mapped == old(page_mapped)[p := false]
      ensures Rest() == old(Rest()) && OtherUse() == old(OtherUse())
    {
      ghost var g, s, in_use := PageTable(), Mine(), pmm.small_in_use_bytes;
      UnbackPage(p, page_blocks[p]);
      ClearSound(s, in_use, g, p);
      ClearKeepsAccess(s.access, va_base, page_mapped, MayUse(), p);
      page_mapped := page_mapped[p := false];
      page_blocks := page_blocks[p := PhysicalBlock(0, 0, -1)];
      mapped_bytes := mapped_bytes - PAGE;
      assert PageTable() == ClearSlot(g, p);
    }

    /** Unmap page p if it is mapped and all its bytes are free. */
    method ReclaimPage(p: nat, free_bytes: nat)
      requires Valid() && p < num_pages && free_bytes == |PageFreeBytes(free_by_addr, free_by_addr.Keys, va_base, p)|
      modifies this`page_mapped, this`page_blocks, this`mapped_bytes, pmm, drv`s
      ensures Valid() && Rest() == old(Rest()) && OtherUse() == old(OtherUse())
      ensures page_mapped == old(page_mapped)[p := old(page_mapped)[p] && !InFreeBlock(free_by_addr, va_base, p)]
    {
      FreeRangesApart(Ranges());
      FullPage(free_by_addr, va_base, p);
      if page_mapped[p] && free_bytes == PAGE {
        FreePageUntouched(Ranges(), p);
        BackedUnmap(allocated_, va_base, page_mapped, p);
        UnmapPage(p);
      }
    }

    /** Unmap every mapped page that lies wholly inside one free block, and no other. */
    method EmptyCache()
      requires Valid()
      modifies this`page_mapped, this`page_blocks, this`mapped_bytes, pmm, drv`s
      ensures Valid() && Rest() == old(Rest()) && OtherUse() == old(OtherUse())
      ensures forall p :: 0 <= p < num_pages ==>
                (page_mapped[p] <==> old(page_mapped)[p] && !InFreeBlock(free_by_addr, va_base, p))
    {
      var page_free_bytes := CountFreeBytes();
      ghost var was, rest, large := page_mapped, Rest(), OtherUse();
      for p := 0 to num_pages
        invariant Valid() && Rest() == rest && OtherUse() == large
        invariant forall q :: p <= q < num_pages ==> page_mapped[q] == was[q]
        invariant forall q :: 0 <= q < p ==> (page_mapped[q] <==> was[q] && !InFreeBlock(free_by_addr, va_base, q))
      {
        ReclaimPage(p, page_free_bytes[p]);
      }
    }

    // ---- peers ----------------------------------------------------------------------------------

    /** Grant a new peer access to every mapped page, and to all future ones. */
    method AddPeerDevice(peer: int)
      requires Valid()
      modifies this`peer_devices, drv`s
      ensures Valid() && Rest() == old(Rest()) && drv.s == old(drv.s).(access := drv.s.access)
      ensures peer_devices == if peer in old(peer_devices) then old(peer_devices) else old(peer_devices) + [peer]
      ensures forall v <- Mine().maps :: v in Mine().access
                && forall x :: x in Mine().access[v] <==> x == device || x in peer_devices
    {
      for i := 0 to |peer_devices|
        invariant peer !in peer_devices[..i]
      {
        if peer_devices[i] == peer {
          AccessByDevice();
          return;
        }
      }
      GrantPeer(peer);
      PeerAdded(Mine().access, va_base, page_mapped, device, peer_devices, peer);
      peer_devices := peer_devices + [peer];
      AccessByDevice();
    }

    /** Each mapped page grants access to the owning device and its peers, and no others. */
    lemma AccessByDevice()
      requires Valid()
      ensures forall v <- Mine().maps :: v in Mine().access
                && forall x :: x in Mine().access[v] <==> x == device || x in peer_devices
    {
      forall v | v in Mine().maps
        ensures v in Mine().access && forall x :: x in Mine().access[v] <==> x == device || x in peer_devices
      {
        PageAccess(Mine(), pmm.small_in_use_bytes, PageTable(), MayUse(), v);
      }
    }

    method GrantPeer(peer: int)
      requires Valid()
      modifies drv`s
      ensures drv.s == old(drv.s).(access := drv.s.access) && Rest() == old(Rest())
      ensures pmm.Valid() && Pages(Mine(), pmm.small_in_use_bytes, PageTable()).Sound?
      ensures Access(Mine().access, va_base, page_mapped, MayUse(), num_pages, {peer}).Sound?
    {
      ghost var d, rest := drv.s, Rest();
      PeerStart(Mine().access, va_base, page_mapped, MayUse(), {peer});
      for p := 0 to num_pages
        invariant drv.s == d.(access := drv.s.access) && Rest() == rest
        invariant pmm.Valid() && Pages(Mine(), pmm.small_in_use_bytes, PageTable()).Sound?
        invariant Access(Mine().access, va_base, page_mapped, MayUse(), p, {peer}).Sound?
      {
        if page_mapped[p] {
          GrantPeerPage(p, peer);
        } else {
          SkipPage(Mine().access, va_base, page_mapped, MayUse(), p, {peer});
        }
      }
    }

    method GrantPeerPage(p: nat, peer: int)
      requires pmm.drv == drv && pmm.Valid() && Pages(Mine(), pmm.small_in_use_bytes, PageTable()).Sound?
      requires p < |page_mapped| && page_mapped[p]
      requires Access(Mine().access, va_base, page_mapped, MayUse(), p, {peer}).Sound?
      modifies drv`s
      ensures drv.s == old(drv.s).(access := drv.s.access) && Rest() == old(Rest())
      ensures pmm.Valid() && Pages(Mine(), pmm.small_in_use_bytes, PageTable()).Sound?
      ensures Access(Mine().access, va_base, page_mapped, MayUse(), p + 1, {peer}).Sound?
    {
      ghost var d, s, g := drv.s, Mine(), PageTable();
      SlotOf(s, pmm.small_in_use_bytes, g, p);
      PageInside(s, pmm.small_in_use_bytes, g, p);
      MappingCovers(d.maps, At(va_base, p));
      GrantedIn(d, pmm.place, va_base, At(va_base, p), PAGE, {peer}, va_base);
      GrantPage(s, pmm.small_in_use_bytes, g, MayUse(), p, {peer});
      var ok := drv.MemSetAccess(At(va_base, p), PAGE, {peer}, true);
      PageStays(s, pmm.small_in_use_bytes, g, Mine().access);
      OtherKeeps(d, pmm.View(), drv.s);
    }

    method Owns(ptr: nat) returns (r: bool)
      requires Valid()
      ensures ptr in allocated_ ==> r
      ensures r <==> va_base <= ptr < va_base + va_size
    {
      r := ptr >= va_base && ptr < va_base + va_size;
      if ptr in allocated_ {
        LiveTile(Ranges(), ptr);
      }
    }
  }

  /** The reservation of a small allocator is on the driver's books. */
  lemma SmallBaseReserved(a: SmallAllocator)
    requires a.PagesValid()
    ensures a.va_base in a.Mine().reserved && a.Mine().reserved[a.va_base] == a.va_size
  {
    assert OpenPages(Seal);
  }
}

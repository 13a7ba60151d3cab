/** The page table of a SmallAllocator against the driver: which 2 MB pages of its reservation are
    backed, by which block, and who may use them (csrc/small_allocator.cc). */
module SmallPages {
  import opened Common
  import opened Parts
  import D = CudaDriver

  /** page_mapped_, page_blocks_ and mapped_bytes_ of the reservation at base. */
  datatype View = View(base: nat, mapped: seq<bool>, blocks: seq<PhysicalBlock>, bytes: int)

  function At(base: nat, p: nat): nat {
    base + p * PAGE
  }

  function Count(mapped: seq<bool>): nat {
    if mapped == [] then 0 else Count(mapped[..|mapped| - 1]) + if mapped[|mapped| - 1] then 1 else 0
  }

  lemma {:induction false} CountSet(mapped: seq<bool>, p: nat, b: bool)
    requires p < |mapped|
    ensures Count(mapped[p := b]) == Count(mapped) + (if b then 1 else 0) - (if mapped[p] then 1 else 0)
    decreases |mapped|
  {
    var n := |mapped| - 1;
    if p == n {
      assert mapped[p := b][..n] == mapped[..n];
    } else {
      assert mapped[p := b][..n] == mapped[..n][p := b];
      CountSet(mapped[..n], p, b);
    }
  }

  lemma {:induction false} CountNone(mapped: seq<bool>)
    requires forall p :: 0 <= p < |mapped| ==> !mapped[p]
    ensures Count(mapped) == 0
  {
    if mapped != [] {
      CountNone(mapped[..|mapped| - 1]);
    }
  }

  ghost predicate Sized(s: Part, g: View) {
    && |g.mapped| == |g.blocks|
    && g.base in s.reserved && s.reserved[g.base] == |g.mapped| * PAGE && g.base % PAGE == 0
  }

  ghost predicate Slot(maps: D.Maps, used: map<nat, nat>, base: nat, p: nat, b: PhysicalBlock) {
    && At(base, p) in maps && maps[At(base, p)] == D.Segment(b.handle, PAGE, base)
    && b.handle in used && b.size == PAGE
  }

  ghost predicate SlotsMapped(s: Part, g: View)
    requires |g.mapped| == |g.blocks|
  {
    forall p :: 0 <= p < |g.mapped| && g.mapped[p] ==> Slot(s.maps, s.used, g.base, p, g.blocks[p])
  }

  ghost predicate InSlot(g: View, v: nat) {
    exists p :: 0 <= p < |g.mapped| && g.mapped[p] && v == At(g.base, p)
  }

  ghost predicate OnlySlots(s: Part, g: View) {
    forall v <- s.maps :: InSlot(g, v)
  }

  ghost predicate BlockInSlot(g: View, h: nat)
    requires |g.mapped| == |g.blocks|
  {
    exists p :: 0 <= p < |g.mapped| && g.mapped[p] && g.blocks[p].handle == h
  }

  ghost predicate UsedInSlots(s: Part, g: View)
    requires |g.mapped| == |g.blocks|
  {
    forall h <- s.used :: BlockInSlot(g, h)
  }

  ghost predicate OneSlotEach(g: View)
    requires |g.mapped| == |g.blocks|
  {
    forall p, q :: 0 <= p < q < |g.mapped| && g.mapped[p] && g.mapped[q] ==> g.blocks[p].handle != g.blocks[q].handle
  }

  /** The mapped pages are exactly the mappings of the reservation, and their blocks are exactly
      the small blocks in use. */
  ghost predicate PagesOk(s: Part, in_use: int, g: View) {
    && Sized(s, g)
    && SlotsMapped(s, g) && OnlySlots(s, g) && UsedInSlots(s, g) && OneSlotEach(g)
    && g.bytes == PAGE * Count(g.mapped) && g.bytes == in_use
  }

  ghost predicate OpenPages(s: Seal) {
    true
  }

  ghost function Pages(s: Part, in_use: int, g: View): Verdict {
    if forall k {:trigger OpenPages(k)} :: OpenPages(k) ==> PagesOk(s, in_use, g) then Sound else Broken
  }

  /** Small bytes in use are 2 MB for every mapped page, as are the mapped bytes. */
  lemma InUseIsMapped(s: Part, in_use: int, g: View)
    requires Pages(s, in_use, g).Sound?
    ensures g.bytes == in_use == PAGE * Count(g.mapped)
  {
    assert OpenPages(Seal);
  }

  // ---- mapping a page -----------------------------------------------------------------------------

  ghost function WithSlot(s: Part, g: View, p: nat, b: PhysicalBlock, devices: set<int>): Part {
    s.(maps := s.maps[At(g.base, p) := D.Segment(b.handle, PAGE, g.base)],
       access := s.access[At(g.base, p) := devices], used := s.used[b.handle := PAGE])
  }

  ghost function FillSlot(g: View, p: nat, b: PhysicalBlock): View
    requires p < |g.mapped| && |g.mapped| == |g.blocks|
  {
    g.(mapped := g.mapped[p := true], blocks := g.blocks[p := b], bytes := g.bytes + PAGE)
  }

  lemma SlotIsApart(s: Part, in_use: int, g: View, p: nat)
    requires Pages(s, in_use, g).Sound? && p < |g.mapped| && !g.mapped[p]
    ensures |g.mapped| == |g.blocks| && At(g.base, p) !in s.maps
    ensures forall v <- s.maps :: s.maps[v].size == PAGE && (v + PAGE <= At(g.base, p) || At(g.base, p) + PAGE <= v)
  {
    assert OpenPages(Seal);
    forall v | v in s.maps
      ensures s.maps[v].size == PAGE && (v + PAGE <= At(g.base, p) || At(g.base, p) + PAGE <= v)
    {
      assert InSlot(g, v);
      var q :| 0 <= q < |g.mapped| && g.mapped[q] && v == At(g.base, q);
      assert q < p || p < q;
    }
  }

  lemma FillKeepsSlots(s: Part, g: View, p: nat, b: PhysicalBlock, devices: set<int>)
    requires |g.mapped| == |g.blocks| && p < |g.mapped| && b.size == PAGE
    requires SlotsMapped(s, g) && OnlySlots(s, g)
    ensures SlotsMapped(WithSlot(s, g, p, b, devices), FillSlot(g, p, b))
    ensures OnlySlots(WithSlot(s, g, p, b, devices), FillSlot(g, p, b))
  {
    var s', g' := WithSlot(s, g, p, b, devices), FillSlot(g, p, b);
    forall v | v in s'.maps
      ensures InSlot(g', v)
    {
      if v == At(g.base, p) {
        assert g'.mapped[p];
      } else {
        assert InSlot(g, v);
        var q :| 0 <= q < |g.mapped| && g.mapped[q] && v == At(g.base, q);
        assert g'.mapped[q];
      }
    }
  }

  lemma FillKeepsUsed(s: Part, g: View, p: nat, b: PhysicalBlock, devices: set<int>)
    requires |g.mapped| == |g.blocks| && p < |g.mapped| && !g.mapped[p] && b.handle !in s.used
    requires SlotsMapped(s, g) && UsedInSlots(s, g) && OneSlotEach(g)
    ensures UsedInSlots(WithSlot(s, g, p, b, devices), FillSlot(g, p, b))
    ensures OneSlotEach(FillSlot(g, p, b))
  {
    var s', g' := WithSlot(s, g, p, b, devices), FillSlot(g, p, b);
    forall h | h in s'.used
      ensures BlockInSlot(g', h)
    {
      if h == b.handle {
        assert g'.mapped[p];
      } else {
        assert BlockInSlot(g, h);
        var q :| 0 <= q < |g.mapped| && g.mapped[q] && g.blocks[q].handle == h;
        assert g'.mapped[q];
      }
    }
    forall q, r | 0 <= q < r < |g'.mapped| && g'.mapped[q] && g'.mapped[r]
      ensures g'.blocks[q].handle != g'.blocks[r].handle
    {
      assert q != p ==> Slot(s.maps, s.used, g.base, q, g.blocks[q]);
      assert r != p ==> Slot(s.maps, s.used, g.base, r, g.blocks[r]);
    }
  }

  /** Backing an unmapped page with a fresh block keeps the page table sound. */
  lemma FillSound(s: Part, in_use: int, g: View, p: nat, b: PhysicalBlock, devices: set<int>)
    requires Pages(s, in_use, g).Sound? && p < |g.mapped| == |g.blocks| && !g.mapped[p]
    requires b.handle !in s.used && b.size == PAGE
    ensures Pages(WithSlot(s, g, p, b, devices), in_use + PAGE, FillSlot(g, p, b)).Sound?
  {
    assert OpenPages(Seal);
    FillKeepsSlots(s, g, p, b, devices);
    FillKeepsUsed(s, g, p, b, devices);
    CountSet(g.mapped, p, true);
  }

  // ---- unmapping a page ------------------------------------------------------------------------------

  ghost function WithoutSlot(s: Part, g: View, p: nat, h: nat): Part {
    s.(maps := s.maps - {At(g.base, p)}, access := s.access - {At(g.base, p)}, used := s.used - {h})
  }

  ghost function ClearSlot(g: View, p: nat): View
    requires p < |g.mapped| && |g.mapped| == |g.blocks|
  {
    g.(mapped := g.mapped[p := false], blocks := g.blocks[p := PhysicalBlock(0, 0, -1)], bytes := g.bytes - PAGE)
  }

  lemma SlotOf(s: Part, in_use: int, g: View, p: nat)
    requires Pages(s, in_use, g).Sound? && p < |g.mapped| && g.mapped[p]
    ensures |g.mapped| == |g.blocks| && Slot(s.maps, s.used, g.base, p, g.blocks[p])
  {
    assert OpenPages(Seal);
  }

  lemma ClearKeepsSlots(s: Part, g: View, p: nat)
    requires |g.mapped| == |g.blocks| && p < |g.mapped| && g.mapped[p]
    requires SlotsMapped(s, g) && OnlySlots(s, g) && OneSlotEach(g)
    ensures SlotsMapped(WithoutSlot(s, g, p, g.blocks[p].handle), ClearSlot(g, p))
    ensures OnlySlots(WithoutSlot(s, g, p, g.blocks[p].handle), ClearSlot(g, p))
  {
    var s', g' := WithoutSlot(s, g, p, g.blocks[p].handle), ClearSlot(g, p);
    forall v | v in s'.maps
      ensures InSlot(g', v)
    {
      assert InSlot(g, v);
      var q :| 0 <= q < |g.mapped| && g.mapped[q] && v == At(g.base, q);
      assert g'.mapped[q];
    }
    forall q | 0 <= q < |g'.mapped| && g'.mapped[q]
      ensures Slot(s'.maps, s'.used, g'.base, q, g'.blocks[q])
    {
      assert Slot(s.maps, s.used, g.base, q, g.blocks[q]);
      assert q < p || p < q;
      assert At(g.base, q) != At(g.base, p);
    }
  }

  lemma ClearKeepsUsed(s: Part, g: View, p: nat)
    requires |g.mapped| == |g.blocks| && p < |g.mapped| && g.mapped[p]
    requires UsedInSlots(s, g) && OneSlotEach(g)
    ensures UsedInSlots(WithoutSlot(s, g, p, g.blocks[p].handle), ClearSlot(g, p)) && OneSlotEach(ClearSlot(g, p))
  {
    var s', g' := WithoutSlot(s, g, p, g.blocks[p].handle), ClearSlot(g, p);
    forall h | h in s'.used
      ensures BlockInSlot(g', h)
    {
      assert BlockInSlot(g, h);
      var q :| 0 <= q < |g.mapped| && g.mapped[q] && g.blocks[q].handle == h;
      assert g'.mapped[q];
    }
  }

  /** Unmapping a page and giving back its block keeps the page table sound. */
  lemma ClearSound(s: Part, in_use: int, g: View, p: nat)
    requires Pages(s, in_use, g).Sound? && p < |g.mapped| == |g.blocks| && g.mapped[p]
    ensures Pages(WithoutSlot(s, g, p, g.blocks[p].handle), in_use - PAGE, ClearSlot(g, p)).Sound?
  {
    assert OpenPages(Seal);
    ClearKeepsSlots(s, g, p);
    ClearKeepsUsed(s, g, p);
    CountSet(g.mapped, p, false);
  }

  // ---- access ------------------------------------------------------------------------------------------

  /** Every mapped page grants access to exactly these devices; a peer being added has been
      granted access up to page k. */
  ghost predicate AccessOk(access: map<nat, set<int>>, base: nat, mapped: seq<bool>, devices: set<int>, k: nat, peer: set<int>) {
    forall p :: 0 <= p < |mapped| && mapped[p] ==>
      At(base, p) in access && access[At(base, p)] == devices + if p < k then peer else {}
  }

  ghost predicate OpenAccess(s: Seal) {
    true
  }

  ghost function Access(access: map<nat, set<int>>, base: nat, mapped: seq<bool>, devices: set<int>, k: nat, peer: set<int>): Verdict {
    if forall s {:trigger OpenAccess(s)} :: OpenAccess(s) ==> AccessOk(access, base, mapped, devices, k, peer) then Sound else Broken
  }

  lemma FillKeepsAccess(access: map<nat, set<int>>, base: nat, mapped: seq<bool>, devices: set<int>, p: nat)
    requires Access(access, base, mapped, devices, 0, {}).Sound? && p < |mapped|
    ensures Access(access[At(base, p) := devices], base, mapped[p := true], devices, 0, {}).Sound?
  {
    assert OpenAccess(Seal);
  }

  lemma ClearKeepsAccess(access: map<nat, set<int>>, base: nat, mapped: seq<bool>, devices: set<int>, p: nat)
    requires Access(access, base, mapped, devices, 0, {}).Sound? && p < |mapped|
    ensures Access(access - {At(base, p)}, base, mapped[p := false], devices, 0, {}).Sound?
  {
    assert OpenAccess(Seal);
    forall q | 0 <= q < |mapped| && mapped[q] && q != p
      ensures At(base, q) != At(base, p)
    {
      assert q < p || p < q;
    }
  }

  /** Granting a peer access to page k. */
  lemma GrantPage(s: Part, in_use: int, g: View, devices: set<int>, k: nat, peer: set<int>)
    requires Pages(s, in_use, g).Sound? && k < |g.mapped| && g.mapped[k]
    requires Access(s.access, g.base, g.mapped, devices, k, peer).Sound?
    ensures Access(D.Grant(s.access, At(g.base, k), PAGE, peer), g.base, g.mapped, devices, k + 1, peer).Sound?
  {
    assert OpenAccess(Seal);
    var access' := D.Grant(s.access, At(g.base, k), PAGE, peer);
    forall p | 0 <= p < |g.mapped| && g.mapped[p]
      ensures At(g.base, p) in access' && access'[At(g.base, p)] == devices + if p < k + 1 then peer else {}
    {
      assert p < k || p == k || k < p;
    }
  }

  lemma SkipPage(access: map<nat, set<int>>, base: nat, mapped: seq<bool>, devices: set<int>, k: nat, peer: set<int>)
    requires Access(access, base, mapped, devices, k, peer).Sound? && k < |mapped| && !mapped[k]
    ensures Access(access, base, mapped, devices, k + 1, peer).Sound?
  {
    assert OpenAccess(Seal);
  }

  lemma PeerAdded(access: map<nat, set<int>>, base: nat, mapped: seq<bool>, device: int, peers: seq<int>, peer: int)
    requires Access(access, base, mapped, Devices(device, peers), |mapped|, {peer}).Sound?
    ensures Access(access, base, mapped, Devices(device, peers + [peer]), 0, {}).Sound?
  {
    assert OpenAccess(Seal);
    assert Devices(device, peers + [peer]) == Devices(device, peers) + {peer};
  }

  /** Nothing is granted yet: the start of adding a peer. */
  lemma PeerStart(access: map<nat, set<int>>, base: nat, mapped: seq<bool>, devices: set<int>, peer: set<int>)
    requires Access(access, base, mapped, devices, 0, {}).Sound?
    ensures Access(access, base, mapped, devices, 0, peer).Sound?
  {
    assert OpenAccess(Seal);
  }

  lemma PageStays(s: Part, in_use: int, g: View, access': map<nat, set<int>>)
    requires Pages(s, in_use, g).Sound?
    ensures Pages(s.(access := access'), in_use, g).Sound?
  {
    assert OpenPages(Seal);
  }

  lemma PageAccess(s: Part, in_use: int, g: View, devices: set<int>, v: nat)
    requires Pages(s, in_use, g).Sound? && Access(s.access, g.base, g.mapped, devices, 0, {}).Sound? && v in s.maps
    ensures v in s.access && s.access[v] == devices
  {
    assert OpenPages(Seal) && OpenAccess(Seal);
    assert InSlot(g, v);
  }

  // ---- which pages a range touches ---------------------------------------------------------------------

  ghost predicate Touches(base: nat, p: nat, b: nat, size: nat) {
    b < At(base, p) + PAGE && At(base, p) < b + size
  }

  /** Every page an allocated range touches is mapped. */
  ghost predicate BackedOk(allocated_: map<nat, nat>, base: nat, mapped: seq<bool>) {
    forall b, p :: b in allocated_ && 0 <= p < |mapped| && Touches(base, p, b, allocated_[b]) ==> mapped[p]
  }

  ghost predicate OpenBacked(s: Seal) {
    true
  }

  ghost function Backed(allocated_: map<nat, nat>, base: nat, mapped: seq<bool>): Verdict {
    if forall s {:trigger OpenBacked(s)} :: OpenBacked(s) ==> BackedOk(allocated_, base, mapped) then Sound else Broken
  }

  function FirstPage(base: nat, b: nat): nat
    requires base <= b
  {
    (b - base) / PAGE
  }

  /** The first and last page of ensurePagesMapped are the ones the range touches. */
  lemma TouchedPages(base: nat, b: nat, size: nat, p: nat)
    requires base <= b && 0 < size
    ensures Touches(base, p, b, size) <==> FirstPage(base, b) <= p <= FirstPage(base, b + size - 1)
  {
  }

  /** How many of the pages from lo up to hi are not mapped. */
  ghost function Unmapped(mapped: seq<bool>, lo: nat, hi: nat): nat
    requires hi <= |mapped|
    decreases hi
  {
    if hi <= lo then 0 else Unmapped(mapped, lo, hi - 1) + if mapped[hi - 1] then 0 else 1
  }

  lemma {:induction false} UnmappedGrows(mapped: seq<bool>, lo: nat, mid: nat, hi: nat)
    requires lo <= mid <= hi <= |mapped|
    ensures Unmapped(mapped, lo, mid) <= Unmapped(mapped, lo, hi)
    decreases hi
  {
    if mid < hi {
      UnmappedGrows(mapped, lo, mid, hi - 1);
    }
  }

  /** The pages from lo up to hi have been mapped, and no others. */
  ghost predicate BackedUpTo(was: seq<bool>, mapped: seq<bool>, lo: nat, hi: nat) {
    |mapped| == |was| && forall p :: 0 <= p < |was| ==> (mapped[p] <==> was[p] || lo <= p < hi)
  }

  lemma BackedNext(was: seq<bool>, mapped: seq<bool>, lo: nat, hi: nat)
    requires BackedUpTo(was, mapped, lo, hi) && lo <= hi < |was|
    ensures mapped[hi] == was[hi] && BackedUpTo(was, mapped[hi := true], lo, hi + 1)
  {
  }

  /** No page has been unmapped, and only pages that [b, b + size) touches have been mapped. */
  ghost predicate MoreMapped(was: seq<bool>, mapped: seq<bool>, base: nat, b: nat, size: nat) {
    && |mapped| == |was|
    && forall p :: 0 <= p < |was| ==> (was[p] ==> mapped[p]) && (mapped[p] ==> was[p] || Touches(base, p, b, size))
  }

  /** The bytes it takes to back every page that [b, b + size) touches. */
  ghost function Backing(base: nat, mapped: seq<bool>, b: nat, size: nat): nat
    requires base <= b && 0 < size && b + size <= base + |mapped| * PAGE
  {
    PAGE * Unmapped(mapped, FirstPage(base, b), FirstPage(base, b + size - 1) + 1)
  }

  lemma BackedMore(allocated_: map<nat, nat>, base: nat, mapped: seq<bool>, mapped': seq<bool>)
    requires Backed(allocated_, base, mapped).Sound? && |mapped| == |mapped'|
    requires forall p :: 0 <= p < |mapped| && mapped[p] ==> mapped'[p]
    ensures Backed(allocated_, base, mapped').Sound?
  {
    assert OpenBacked(Seal);
  }

  lemma BackedAdd(allocated_: map<nat, nat>, base: nat, mapped: seq<bool>, b: nat, size: nat)
    requires Backed(allocated_, base, mapped).Sound?
    requires forall p :: 0 <= p < |mapped| && Touches(base, p, b, size) ==> mapped[p]
    ensures Backed(allocated_[b := size], base, mapped).Sound?
  {
    assert OpenBacked(Seal);
  }

  lemma BackedRemove(allocated_: map<nat, nat>, base: nat, mapped: seq<bool>, b: nat)
    requires Backed(allocated_, base, mapped).Sound?
    ensures Backed(allocated_ - {b}, base, mapped).Sound?
  {
    assert OpenBacked(Seal);
  }

  /** Unmapping a page no allocated range touches. */
  lemma BackedUnmap(allocated_: map<nat, nat>, base: nat, mapped: seq<bool>, p: nat)
    requires Backed(allocated_, base, mapped).Sound? && p < |mapped|
    requires forall b <- allocated_ :: !Touches(base, p, b, allocated_[b])
    ensures Backed(allocated_, base, mapped[p := false]).Sound?
  {
    assert OpenBacked(Seal);
  }

  /** The memory behind an allocated range: every byte is mapped inside the reservation. */
  lemma RangeIsMapped(s: Part, in_use: int, g: View, allocated_: map<nat, nat>, b: nat, x: nat)
    requires Pages(s, in_use, g).Sound? && Backed(allocated_, g.base, g.mapped).Sound?
    requires b in allocated_ && b <= x < b + allocated_[b] && g.base <= b && b + allocated_[b] <= g.base + |g.mapped| * PAGE
    ensures D.IsMapped(s.maps, x)
  {
    var p := FirstPage(g.base, x);
    assert Touches(g.base, p, b, allocated_[b]);
    assert OpenBacked(Seal) && OpenPages(Seal);
    assert g.mapped[p];
    assert Slot(s.maps, s.used, g.base, p, g.blocks[p]);
    assert D.Holds(s.maps, At(g.base, p), x);
  }
}

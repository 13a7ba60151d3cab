/** LargeAllocator: one reservation per allocation, packed with blocks of the size classes
    (csrc/large_allocator.cc). */
module LargeAllocator {
  import opened Common
  import opened Sums
  import opened Layout
  import opened LargeBlocks
  import opened Parts
  import opened Pools
  import opened PhysicalMemory
  import opened Supply
  import D = CudaDriver

  datatype Outcome = Pointer(va: nat) | ZeroSize | Failed

  /** Where the blocks are when an operation starts. */
  datatype Snapshot = Snapshot(rest: Part, small: Part, place: Places, in_use: int, small_in_use: int, purges: (nat, nat),
                               small_free: seq<PhysicalBlock>)

  // ---- the blocks held by an operation in progress -------------------------------------------------

  ghost predicate CustodyOk(home: Places, place: Places, held: map<nat, nat>) {
    && home.Keys <= place.Keys
    && (forall h <- held :: h in place && (h in home ==> PoolOf(home[h]) == LargeCached))
    && (forall h <- place :: h !in held ==> PoolOf(place[h]) == if h in home then PoolOf(home[h]) else LargeCached)
  }

  ghost predicate OpenCustody(s: Seal) {
    true
  }

  /** Apart from the blocks held, every block is in the pool it came from; new ones are cached. */
  ghost function Custody(home: Places, place: Places, held: map<nat, nat>): Verdict {
    if forall s {:trigger OpenCustody(s)} :: OpenCustody(s) ==> CustodyOk(home, place, held) then Sound else Broken
  }

  lemma CustodyTake(home: Places, d: D.State, v: Manager, d': D.State, v': Manager, held: map<nat, nat>, b: PhysicalBlock, size: nat)
    requires Custody(home, v.place, held).Sound? && Handed(d, v, d', v', b, size, LargeUse) && v.place.Keys == d.live.Keys
    requires b.handle !in held
    ensures Custody(home, v'.place, held[b.handle := b.size]).Sound?
  {
    assert OpenCustody(Seal);
  }

  lemma CustodyDrop(home: Places, v: Manager, v': Manager, held: map<nat, nat>, b: PhysicalBlock)
    requires Custody(home, v.place, held).Sound? && Returned(v, v', b) && b.handle in held && v.place[b.handle] == LargeUse
    ensures Custody(home, v'.place, held - {b.handle}).Sound?
  {
    assert OpenCustody(Seal);
  }

  /** Every block is in the pool it was in, and blocks that are new are cached. */
  ghost predicate BackHome(home: Places, place: Places) {
    && home.Keys <= place.Keys
    && forall h <- place :: PoolOf(place[h]) == if h in home then PoolOf(home[h]) else LargeCached
  }

  lemma CustodyDone(home: Places, place: Places)
    requires Custody(home, place, map[]).Sound?
    ensures BackHome(home, place)
  {
    assert OpenCustody(Seal);
  }

  lemma NotTheSmallOne(d: D.State, place: Places, base: nat, va: nat, size: nat)
    requires D.Sane(d).Sound? && D.FreeToReserve(d, va, size) && base in SmallPart(d, place, base).reserved
    ensures va != base && va !in RestPart(d, place, base).reserved && va !in d.reserved
  {
    assert Open(Seal);
  }

  lemma OverlaySum(r0: Part, r: Part, va: nat, total: nat, at: nat, held: seq<PhysicalBlock>, n: nat, devices: set<int>)
    requires Overlay(r0, r, va, total, at, held, n, devices).Sound?
    ensures va !in r0.reserved && Sum(r.reserved) == Sum(r0.reserved) + total
  {
    assert OpenOverlay(Seal);
    SumInsert(r0.reserved, va, total);
  }

  /** Where blocks taken out of use will be: in their buckets. */
  ghost function HomeOf(place: Places, uses: map<nat, nat>): Places {
    map h | h in place :: if h in uses then LargeCache(uses[h], 0) else place[h]
  }

  lemma CustodyOfLive(d: D.State, place: Places, base: nat, r0: Part, va: nat, a: Allocation, devices: set<int>)
    requires Overlay(r0, RestPart(d, place, base), va, a.va_size, va, a.blocks, |a.blocks|, devices).Sound?
    ensures Custody(HomeOf(place, Uses(a.blocks)), place, Uses(a.blocks)).Sound?
  {
    OverlayWhole(r0, RestPart(d, place, base), va, a.va_size, a.blocks, devices);
  }

  lemma NotSmall(r: Part, allocs: Allocations, va: nat, base: nat, d: D.State, place: Places)
    requires r == RestPart(d, place, base) && Records(r, allocs).Sound? && va in allocs
    ensures va != base
  {
    assert OpenRecords(Seal);
    assert RecordOk(r, va, allocs[va]);
  }

  lemma RecordOf(r: Part, allocs: Allocations, va: nat)
    requires Records(r, allocs).Sound? && va in allocs
    ensures RecordOk(r, va, allocs[va])
  {
    assert OpenRecords(Seal);
  }

  lemma ReservedIsRecorded(r: Part, allocs: Allocations, va: nat)
    requires Records(r, allocs).Sound?
    ensures va in r.reserved <==> va in allocs
  {
    assert OpenRecords(Seal);
  }

  lemma NullIsNotAllocated(r: Part, allocs: Allocations)
    requires Records(r, allocs).Sound?
    ensures 0 !in allocs
  {
    if 0 in allocs {
      RecordOf(r, allocs, 0);
    }
  }

  ghost predicate PackedOk(allocs: Allocations) {
    forall va <- allocs :: Sizes(allocs[va].blocks) == Pack(allocs[va].requested_size)
  }

  ghost predicate OpenPacked(s: Seal) {
    true
  }

  /** Every allocation is made of the packing of its requested size. */
  ghost function Packed(allocs: Allocations): Verdict {
    if forall s {:trigger OpenPacked(s)} :: OpenPacked(s) ==> PackedOk(allocs) then Sound else Broken
  }

  lemma PackedSizes(allocs: Allocations, va: nat)
    requires Packed(allocs).Sound?
    ensures va in allocs ==> Sizes(allocs[va].blocks) == Pack(allocs[va].requested_size)
  {
    assert OpenPacked(Seal);
  }

  lemma PackedAdd(allocs: Allocations, va: nat, a: Allocation)
    requires Packed(allocs).Sound? && Sizes(a.blocks) == Pack(a.requested_size)
    ensures Packed(allocs[va := a]).Sound?
  {
    assert OpenPacked(Seal);
  }

  lemma PackedDrop(allocs: Allocations, va: nat)
    requires Packed(allocs).Sound?
    ensures Packed(allocs - {va}).Sound?
  {
    assert OpenPacked(Seal);
  }

  /** What an allocation is made of supplies the same request again. */
  lemma SuppliesItself(r: Part, allocs: Allocations, va: nat, large: Buckets, large': Buckets)
    requires Records(r, allocs).Sound? && Packed(allocs).Sound? && va in allocs
    requires Added(large, Sizes(allocs[va].blocks), large')
    ensures allocs[va].requested_size > 0 && Shortfall(Pack(allocs[va].requested_size), large') == 0
  {
    assert OpenPacked(Seal);
    RecordOf(r, allocs, va);
    var list := Pack(allocs[va].requested_size);
    PackAllGreedy(allocs[va].requested_size);
    assert forall i :: 0 <= i < |list| ==> GreedyAt(list, allocs[va].requested_size, i);
    assert Supplied(list, large');
    FullSupply(list, large');
  }

  // ---- mapping the next block -------------------------------------------------------------------------

  lemma NextMayBeMapped(d: D.State, place: Places, base: nat, r0: Part, va: nat, total: nat, held: seq<PhysicalBlock>, n: nat, v: nat)
    requires D.Sane(d).Sound? && va != base && Overlay(r0, RestPart(d, place, base), va, total, va, held, n, {}).Sound?
    requires n < |held| && v == va + Total(held[..n]) && v + held[n].size <= va + total && held[n].size > 0
    requires held[n].handle in d.live && d.live[held[n].handle] == held[n].size && held[n].handle !in d.mappedAt
    ensures D.MayMap(d, v, D.Segment(held[n].handle, held[n].size, va)) && v !in d.maps
  {
    var r, size := RestPart(d, place, base), held[n].size;
    OverlayNext(r0, r, va, total, held, n, {});
    OverlayReserved(r0, r, va, total, va, held, n, {});
    assert D.Inside(d.reserved, va, v, size);
    OthersApart(d, va, v, size);
    forall w | w in d.maps
      ensures w + d.maps[w].size <= v || v + size <= w
    {
      if d.maps[w].region == va {
        assert w in r.maps;
      }
    }
  }

  lemma OverlayReserved(r0: Part, r: Part, va: nat, total: nat, at: nat, held: seq<PhysicalBlock>, n: nat, devices: set<int>)
    requires Overlay(r0, r, va, total, at, held, n, devices).Sound?
    ensures va in r.reserved && r.reserved[va] == total
  {
    assert OpenOverlay(Seal);
  }

  lemma NotHeld(r0: Part, r: Part, va: nat, total: nat, held: seq<PhysicalBlock>, h: nat)
    requires Overlay(r0, r, va, total, va, held, |held|, {}).Sound? && h !in r.used
    ensures h !in Uses(held)
  {
    assert OpenOverlay(Seal);
  }

  lemma {:induction false} SumPrefix(s: seq<nat>, i: nat)
    requires i <= |s|
    ensures SumOf(s[..i]) <= SumOf(s)
    decreases |s| - i
  {
    if i < |s| {
      assert s[..i + 1][..i] == s[..i];
      SumPrefix(s, i + 1);
    } else {
      assert s[..i] == s;
    }
  }

  lemma AddOne(s: seq<nat>, i: nat)
    requires i < |s|
    ensures SumOf(s[..i + 1]) == SumOf(s[..i]) + s[i] && SumOf(s[..i]) + s[i] <= SumOf(s)
    ensures s[..i + 1] == s[..i] + [s[i]]
  {
    assert s[..i + 1][..i] == s[..i];
    SumPrefix(s, i + 1);
  }

  lemma UsesFirstHeld(r0: Part, r: Part, va: nat, total: nat, at: nat, held: seq<PhysicalBlock>, n: nat, devices: set<int>)
    requires Overlay(r0, r, va, total, at, held, n, devices).Sound? && held != []
    ensures held[0].handle in Uses(held) && Uses(held) - {held[0].handle} == Uses(held[1..])
  {
    assert OpenOverlay(Seal);
    UsesFirst(held);
  }

  /** How many of the blocks from number i on are mapped, when the first n are. */
  ghost function StillMapped(n: nat, i: nat): nat {
    if i < n then n - i else 0
  }

  lemma NothingMapped(d: D.State, place: Places, base: nat, va: nat)
    requires va != base && forall v <- RestPart(d, place, base).maps :: RestPart(d, place, base).maps[v].region != va
    ensures forall v <- d.maps :: d.maps[v].region != va
  {
    forall v | v in d.maps
      ensures d.maps[v].region != va
    {
      assert d.maps[v].region != base ==> v in RestPart(d, place, base).maps;
    }
  }

  lemma CoveredByPart(d: D.State, place: Places, base: nat, va: nat, size: nat)
    requires D.Covered(RestPart(d, place, base).maps, va, size)
    ensures D.Covered(d.maps, va, size)
  {
    var maps := RestPart(d, place, base).maps;
    forall x: nat {:trigger D.IsMapped(d.maps, x)} | va <= x < va + size
      ensures D.IsMapped(d.maps, x)
    {
      assert D.IsMapped(maps, x);
      var v :| D.Holds(maps, v, x);
      assert D.Holds(d.maps, v, x);
    }
  }

  class LargeAllocator {
    const device: int
    const drv: D.Driver
    const pmm: PhysicalMemoryManager
    /** The reservation of the device's small allocator, which this one leaves alone. */
    const small_base: nat

    var allocs: Allocations
    var allocated_bytes: int
    var peer_devices: seq<int>

    ghost function Small(): Part
      reads pmm`place, drv`s
    {
      SmallPart(drv.s, pmm.place, small_base)
    }

    ghost function Mine(): Part
      reads pmm`place, drv`s
    {
      RestPart(drv.s, pmm.place, small_base)
    }

    ghost function MayUse(): set<int>
      reads this
    {
      Devices(device, peer_devices)
    }

    ghost function Now(): Snapshot
      reads pmm, drv
    {
      Snapshot(Mine(), Small(), pmm.place, pmm.large_in_use_bytes, pmm.small_in_use_bytes, pmm.Purges(), pmm.small_free)
    }

    ghost predicate Valid()
      reads this, pmm, drv
    {
      && pmm.drv == drv && pmm.Valid() && small_base in Small().reserved
      && Records(Mine(), allocs).Sound? && Used(Mine()).Sound? && Grants(Mine(), MayUse(), {}, {}).Sound?
      && Packed(allocs).Sound? && allocated_bytes == pmm.large_in_use_bytes == Sum(Mine().reserved)
    }

    constructor (device: int, pmm: PhysicalMemoryManager, small_base: nat)
      requires pmm.Valid() && pmm.large_in_use_bytes == 0 && small_base in pmm.drv.s.reserved
      requires RestPart(pmm.drv.s, pmm.place, small_base) == Part(map[], map[], map[], map[])
      ensures Valid() && this.device == device && this.pmm == pmm && drv == pmm.drv && this.small_base == small_base
      ensures allocs == map[] && peer_devices == []
    {
      this.device, this.drv, this.pmm, this.small_base := device, pmm.drv, pmm, small_base;
      allocs, allocated_bytes, peer_devices := map[], 0, [];
    }

    /** An allocation on its way in or out, on top of the state s. */
    ghost predicate InProgress(s: Snapshot, va: nat, total: nat, at: nat, held: seq<PhysicalBlock>, n: nat, devices: set<int>)
      reads pmm, drv
    {
      && pmm.drv == drv && pmm.Valid()
      && Overlay(s.rest, Mine(), va, total, at, held, n, devices).Sound?
      && Custody(s.place, pmm.place, Uses(held)).Sound?
      && Small() == s.small && small_base in Small().reserved && va != small_base
      && pmm.large_in_use_bytes == s.in_use + Total(held) && pmm.small_in_use_bytes == s.small_in_use
      && pmm.Purges() == s.purges && pmm.small_free == s.small_free
      && n <= |held| <= n + 1 && (n < |held| ==> held[n].handle !in drv.s.mappedAt)
    }

    /** Obtain the next block. */
    method TakeBlock(ghost s: Snapshot, va: nat, ghost total: nat, size: nat, blocks: seq<PhysicalBlock>)
        returns (blk: Option<PhysicalBlock>)
      requires InProgress(s, va, total, va, blocks, |blocks|, {}) && LegalClass(size)
      modifies pmm, drv`s, drv`used, drv`next
      ensures blk.None? ==> InProgress(s, va, total, va, blocks, |blocks|, {})
      ensures blk.Some? ==> InProgress(s, va, total, va, blocks + [blk.value], |blocks|, {}) && blk.value.size == size
      ensures blk.Some? ==> var h := blk.value.handle; h in drv.s.live && drv.s.live[h] == size && h !in drv.s.mappedAt
                                                       && h in pmm.place && pmm.place[h] == LargeUse
      ensures blk.None? ==> Cached(old(pmm.large_free), size) == 0 && (!drv.refuses ==> drv.used + size > drv.capacity)
      ensures OneDrawn(old(pmm.large_free), size, pmm.large_free)
      ensures drv.used == old(drv.used) + if blk.None? || Cached(old(pmm.large_free), size) > 0 then 0 else size
    {
      ghost var d, v, r := drv.s, pmm.View(), Mine();
      blk := pmm.AllocLargeBlock(size);
      if blk.Some? {
        PlacesAreLive(d, v);
        HandedLarge(d, v, drv.s, pmm.View(), blk.value, size, small_base);
        OverlayTake(s.rest, r, va, total, va, blocks, {}, blk.value);
        NotHeld(s.rest, r, va, total, blocks, blk.value.handle);
        CustodyTake(s.place, d, v, drv.s, pmm.View(), Uses(blocks), blk.value, size);
        UsesAppend(blocks, blk.value);
        TotalAppend(blocks, blk.value);
      }
    }

    /** Map the last block obtained after the others. */
    method MapLast(ghost s: Snapshot, va: nat, ghost total: nat, v: nat, blk: PhysicalBlock, ghost blocks: seq<PhysicalBlock>, ghost n: nat)
        returns (ok: bool)
      requires n + 1 == |blocks| && blocks[n] == blk && blk.size > 0
      requires InProgress(s, va, total, va, blocks, n, {}) && v == va + Total(blocks[..n]) && v + blk.size <= va + total
      requires blk.handle in drv.s.live && drv.s.live[blk.handle] == blk.size && blk.handle in pmm.place && pmm.place[blk.handle] == LargeUse
      modifies drv`s
      ensures InProgress(s, va, total, va, blocks, if ok then n + 1 else n, {})
      ensures !drv.faults ==> ok
    {
      ghost var d, r := drv.s, Mine();
      NextMayBeMapped(d, pmm.place, small_base, s.rest, va, total, blocks, n, v);
      ok := drv.MemMap(v, blk.size, blk.handle, va, false);
      if ok {
        ghost var seg := D.Segment(blk.handle, blk.size, va);
        MappedKeeps(d, pmm.View(), v, seg);
        MappedLarge(d, pmm.place, v, seg, small_base);
        OverlayMap(s.rest, r, va, total, blocks, n, v);
      }
    }

    /** One round of the mapping loop: obtain a block and map it after the others. */
    method MapBlock(ghost s: Snapshot, va: nat, ghost total: nat, offset: nat, size: nat, held: seq<PhysicalBlock>)
        returns (blocks: seq<PhysicalBlock>, ok: bool)
      requires InProgress(s, va, total, va, held, |held|, {}) && LegalClass(size)
      requires offset == Total(held) && offset + size <= total
      modifies pmm, drv`s, drv`used, drv`next
      ensures InProgress(s, va, total, va, blocks, if ok then |blocks| else |held|, {})
      ensures ok ==> Total(blocks) == offset + size && |blocks| == |held| + 1 && Sizes(blocks) == Sizes(held) + [size]
      ensures OneDrawn(old(pmm.large_free), size, pmm.large_free)
      ensures ok ==> drv.used == old(drv.used) + if Cached(old(pmm.large_free), size) > 0 then 0 else size
      ensures !ok && !drv.faults ==> Cached(old(pmm.large_free), size) == 0 && drv.used == old(drv.used)
                                     && (!drv.refuses ==> drv.used + size > drv.capacity)
    {
      var blk := TakeBlock(s, va, total, size, held);
      if blk.None? {
        return held, false;
      }
      blocks := held + [blk.value];
      assert blocks[..|held|] == held;
      ok := MapLast(s, va, total, va + offset, blk.value, blocks, |held|);
      TotalAppend(held, blk.value);
    }

    method UnmapFirst(at: nat, ghost blk: PhysicalBlock, ghost va: nat)
      requires pmm.drv == drv && pmm.Valid() && at in Mine().maps && Mine().maps[at] == D.Segment(blk.handle, blk.size, va)
      modifies drv`s
      ensures pmm.Valid() && Mine() == MinusMap(old(Mine()), at) && Small() == old(Small())
      ensures drv.s.mappedAt == old(drv.s.mappedAt) - {blk.handle} && drv.s.live == old(drv.s.live)
    {
      UnmappedLarge(drv.s, pmm.place, at, small_base);
      UnmappedKeeps(drv.s, pmm.View(), at);
      drv.MemUnmap(at, blk.size);
    }

    method GiveBack(blk: PhysicalBlock, ghost home: Places, ghost held: map<nat, nat>)
      requires pmm.drv == drv && pmm.Valid() && blk.handle in Mine().used && Mine().used[blk.handle] == blk.size
      requires blk.handle !in drv.s.mappedAt && blk.handle in held && Custody(home, pmm.place, held).Sound?
      modifies pmm
      ensures pmm.Valid() && Mine() == old(Mine()).(used := old(Mine()).used - {blk.handle}) && Small() == old(Small())
      ensures Custody(home, pmm.place, held - {blk.handle}).Sound? && Added(old(pmm.large_free), [blk.size], pmm.large_free)
      ensures pmm.large_in_use_bytes == old(pmm.large_in_use_bytes) - blk.size
      ensures pmm.small_in_use_bytes == old(pmm.small_in_use_bytes) && pmm.Purges() == old(pmm.Purges()) && pmm.small_free == old(pmm.small_free)
    {
      ghost var v := pmm.View();
      pmm.FreeLargeBlock(blk);
      ReturnedTo(drv.s.live, v.place, pmm.place, blk.handle, LargeUse);
      CustodyDrop(home, v, pmm.View(), held, blk);
    }

    /** Unmap the first block held and give it back to its bucket. */
    method ReturnMapped(ghost s: Snapshot, va: nat, ghost total: nat, at: nat, ghost held: seq<PhysicalBlock>,
                        ghost rest: seq<PhysicalBlock>, blk: PhysicalBlock, ghost n: nat, ghost devices: set<int>)
        returns (next: nat, ghost left: nat)
      requires InProgress(s, va, total, at, held, n, devices) && n > 0 && blk == held[0] && rest == held[1..]
      modifies pmm, drv`s
      ensures InProgress(s, va, total, next, rest, left, devices) && drv.s.live == old(drv.s.live)
      ensures next == at + blk.size && left == n - 1 && Added(old(pmm.large_free), [blk.size], pmm.large_free)
    {
      ghost var r := Mine();
      OverlayFirst(s.rest, r, va, total, at, held, n, devices);
      UsesFirstHeld(s.rest, r, va, total, at, held, n, devices);
      UnmapFirst(at, blk, va);
      assert n < |held| ==> held[1..][n - 1] == held[n];
      GiveBack(blk, s.place, Uses(held));
      next, left := at + blk.size, n - 1;
      OverlayDrop(s.rest, r, va, total, at, held, n, devices, Mine(), next, rest, left);
    }

    /** Give back the one block that could not be mapped. */
    method ReturnUnmapped(ghost s: Snapshot, va: nat, ghost total: nat, at: nat, ghost held: seq<PhysicalBlock>,
                          ghost rest: seq<PhysicalBlock>, blk: PhysicalBlock, ghost devices: set<int>)
      requires InProgress(s, va, total, at, held, 0, devices) && held != [] && blk == held[0] && rest == held[1..]
      modifies pmm
      ensures InProgress(s, va, total, at, rest, 0, devices) && Added(old(pmm.large_free), [blk.size], pmm.large_free)
    {
      ghost var r := Mine();
      OverlayFirst(s.rest, r, va, total, at, held, 0, devices);
      UsesFirstHeld(s.rest, r, va, total, at, held, 0, devices);
      OverlayDropUnmapped(s.rest, r, va, total, at, held, devices);
      GiveBack(blk, s.place, Uses(held));
    }

    /** The unwinding loop and the release of the reservation: of the blocks held, the first
        num_mapped are mapped. Nothing but the blocks' being cached is left behind. */
    method ReturnBlocks(ghost s: Snapshot, va: nat, total: nat, blocks: seq<PhysicalBlock>, num_mapped: nat, ghost devices: set<int>)
      requires InProgress(s, va, total, va, blocks, num_mapped, devices)
      modifies pmm, drv`s
      ensures pmm.Valid() && Mine() == s.rest && Small() == s.small && Custody(s.place, pmm.place, map[]).Sound?
      ensures pmm.large_in_use_bytes == s.in_use && pmm.small_in_use_bytes == s.small_in_use
      ensures pmm.Purges() == s.purges && pmm.small_free == s.small_free
      ensures drv.s.live == old(drv.s.live) && Added(old(pmm.large_free), Sizes(blocks), pmm.large_free)
    {
      ghost var large, sizes := pmm.large_free, Sizes(blocks);
      var at := va;
      ghost var n := num_mapped;
      assert blocks[0..] == blocks;
      for i := 0 to |blocks|
        invariant InProgress(s, va, total, at, blocks[i..], n, devices) && n == StillMapped(num_mapped, i)
        invariant drv.s.live == old(drv.s.live) && Added(large, sizes[..i], pmm.large_free)
      {
        ghost var before := pmm.large_free;
        at, n := ReturnNext(s, va, total, at, blocks, i, n, num_mapped, devices);
        AddNext(large, sizes, i, before, pmm.large_free);
      }
      assert sizes[..|blocks|] == sizes;
      ReleaseReservation(s, va, total, at, devices);
    }

    method ReturnNext(ghost s: Snapshot, va: nat, ghost total: nat, here: nat, blocks: seq<PhysicalBlock>, i: nat, ghost n: nat,
                      num_mapped: nat, ghost devices: set<int>) returns (at: nat, ghost left: nat)
      requires i < |blocks| && InProgress(s, va, total, here, blocks[i..], n, devices) && n == StillMapped(num_mapped, i)
      modifies pmm, drv`s
      ensures InProgress(s, va, total, at, blocks[i + 1..], left, devices) && left == StillMapped(num_mapped, i + 1)
      ensures drv.s.live == old(drv.s.live) && Added(old(pmm.large_free), [blocks[i].size], pmm.large_free)
    {
      ghost var held, rest := blocks[i..], blocks[i + 1..];
      assert held[1..] == rest;
      if i < num_mapped {
        at, left := ReturnMapped(s, va, total, here, held, rest, blocks[i], n, devices);
      } else {
        ReturnUnmapped(s, va, total, here, held, rest, blocks[i], devices);
        at, left := here, 0;
      }
    }

    method ReleaseReservation(ghost s: Snapshot, va: nat, total: nat, ghost at: nat, ghost devices: set<int>)
      requires InProgress(s, va, total, at, [], 0, devices)
      modifies drv`s
      ensures pmm.Valid() && Mine() == s.rest && Small() == s.small && Custody(s.place, pmm.place, map[]).Sound?
      ensures drv.s.live == old(drv.s.live)
    {
      ghost var d, r := drv.s, Mine();
      OverlayReserved(s.rest, r, va, total, at, [], 0, devices);
      assert va in d.reserved && d.reserved[va] == total;
      OverlayDone(s.rest, r, va, total, at, devices);
      NothingMapped(d, pmm.place, small_base, va);
      UnreservedIn(d, pmm.place, va, small_base);
      drv.MemAddressFree(va, total);
      OtherKeeps(d, pmm.View(), drv.s);
    }

    /** The buckets cannot supply all of the layout, and what is missing does not fit the device,
        unless the driver refuses. */
    ghost predicate Short(layout: seq<nat>, large: Buckets, used: nat) {
      Shortfall(layout, large) > 0 && (!drv.refuses ==> used + Shortfall(layout, large) > drv.capacity)
    }

    /** The mapping loop has gone through the first |blocks| classes of the layout. */
    ghost predicate Mapping(s: Snapshot, va: nat, total: nat, layout: seq<nat>, blocks: seq<PhysicalBlock>, large: Buckets, used: nat)
      reads pmm, drv
    {
      var n := |blocks|;
      && n <= |layout| && InProgress(s, va, total, va, blocks, n, {})
      && Total(blocks) == SumOf(layout[..n]) && Sizes(blocks) == layout[..n]
      && drv.used == used + Shortfall(layout[..n], large) && Drawn(large, layout[..n], pmm.large_free)
    }

    method MapNext(ghost s: Snapshot, va: nat, ghost total: nat, layout: seq<nat>, held: seq<PhysicalBlock>, offset: nat,
                   ghost large: Buckets, ghost used: nat) returns (blocks: seq<PhysicalBlock>, ok: bool)
      requires Mapping(s, va, total, layout, held, large, used) && |held| < |layout| && offset == Total(held)
      requires LegalList(layout) && SumOf(layout) == total
      modifies pmm, drv`s, drv`used, drv`next
      ensures ok ==> Mapping(s, va, total, layout, blocks, large, used) && |blocks| == |held| + 1
                     && Total(blocks) == offset + layout[|held|]
      ensures !ok ==> InProgress(s, va, total, va, blocks, |held|, {})
      ensures !ok && !drv.faults ==> Short(layout, large, used)
    {
      ghost var n, before := |held|, pmm.large_free;
      AddOne(layout, n);
      ShortfallGrows(layout, n + 1, large);
      blocks, ok := MapBlock(s, va, total, offset, layout[|held|], held);
      DrawNext(large, layout, n, before, pmm.large_free);
    }

    /** The mapping loop. */
    method MapBlocks(ghost s: Snapshot, va: nat, ghost total: nat, layout: seq<nat>)
        returns (blocks: seq<PhysicalBlock>, num_mapped: nat, ok: bool)
      requires InProgress(s, va, total, va, [], 0, {}) && LegalList(layout) && SumOf(layout) == total
      modifies pmm, drv`s, drv`used, drv`next
      ensures InProgress(s, va, total, va, blocks, num_mapped, {})
      ensures ok ==> num_mapped == |blocks| && Sizes(blocks) == layout && Total(blocks) == total
      ensures ok ==> drv.used == old(drv.used) + Shortfall(layout, old(pmm.large_free))
                     && Drawn(old(pmm.large_free), layout, pmm.large_free)
      ensures !ok && !drv.faults ==> Short(layout, old(pmm.large_free), old(drv.used))
    {
      blocks, num_mapped, ok := [], 0, true;
      var offset := 0;
      ghost var used, large := drv.used, pmm.large_free;
      DrawNone(large);
      assert layout[..0] == [];
      while num_mapped < |layout|
        invariant Mapping(s, va, total, layout, blocks, large, used) && num_mapped == |blocks| && offset == Total(blocks)
      {
        blocks, ok := MapNext(s, va, total, layout, blocks, offset, large, used);
        if !ok {
          return;
        }
        offset := offset + layout[num_mapped];
        num_mapped := num_mapped + 1;
      }
      assert layout[..|layout|] == layout;
    }

    /** setAccess: grant the device and its peers access to the whole reservation. */
    method GrantAll(ghost s: Snapshot, va: nat, total: nat, ghost blocks: seq<PhysicalBlock>) returns (ok: bool)
      requires InProgress(s, va, total, va, blocks, |blocks|, {}) && Total(blocks) == total
      modifies drv`s
      ensures InProgress(s, va, total, va, blocks, |blocks|, if ok then MayUse() else {})
      ensures !drv.faults ==> ok
    {
      ghost var d, r := drv.s, Mine();
      var devices := {device} + set x | x in peer_devices;
      assert blocks[..|blocks|] == blocks;
      OverlayCovers(s.rest, r, va, total, blocks, |blocks|, {});
      OverlayReserved(s.rest, r, va, total, va, blocks, |blocks|, {});
      CoveredByPart(d, pmm.place, small_base, va, total);
      ok := drv.MemSetAccess(va, total, devices, false);
      if ok {
        assert D.Inside(d.reserved, va, va, total);
        OtherRegionsOutside(d, va, va, total);
        GrantedIn(d, pmm.place, va, va, total, devices, small_base);
        OverlayGrant(s.rest, r, va, total, blocks, |blocks|, devices);
        OtherKeeps(d, pmm.View(), drv.s);
      }
    }

    /** Reserve address space for the allocation. */
    method Reserve(total: nat) returns (va: Option<nat>, ghost s: Snapshot)
      requires Valid() && total > 0
      modifies drv`s, drv`top
      ensures s == old(Now())
      ensures va.None? ==> drv.s == old(drv.s)
      ensures !drv.faults ==> va.Some?
      ensures va.Some? ==> va.value > 0 && va.value !in allocs && InProgress(s, va.value, total, va.value, [], 0, {})
      ensures drv.Valid()
    {
      s := Now();
      ghost var d := drv.s;
      va := drv.MemAddressReserve(total, false);
      if va.Some? {
        NotTheSmallOne(d, pmm.place, small_base, va.value, total);
        NewAllocation(s.rest, allocs, va.value);
        ReservedIn(d, pmm.place, va.value, total, small_base);
        OverlayStart(s.rest, va.value, total);
        OtherKeeps(d, pmm.View(), drv.s);
      }
    }

    /** Record a finished allocation. */
    method Record(ghost s: Snapshot, va: nat, total: nat, size: nat, blocks: seq<PhysicalBlock>)
      requires InProgress(s, va, total, va, blocks, |blocks|, MayUse()) && total == Total(blocks) && total > 0
      requires Records(s.rest, allocs).Sound? && Used(s.rest).Sound? && Grants(s.rest, MayUse(), {}, {}).Sound?
      requires Packed(allocs).Sound? && Sizes(blocks) == Pack(size)
      requires allocated_bytes == s.in_use == Sum(s.rest.reserved)
      modifies this`allocs, this`allocated_bytes
      ensures Valid() && allocs == old(allocs)[va := Allocation(va, total, size, blocks)]
      ensures allocated_bytes == old(allocated_bytes) + total && Without(Mine(), va, allocs[va]) == s.rest
    {
      ghost var r := Mine();
      var a := Allocation(va, total, size, blocks);
      RecordAdded(s.rest, r, allocs, va, a, MayUse());
      UsedAdded(s.rest, r, va, total, blocks, MayUse());
      AccessAdded(s.rest, r, va, total, blocks, MayUse());
      OverlaySum(s.rest, r, va, total, va, blocks, |blocks|, MayUse());
      OverlayWithout(s.rest, r, va, a, MayUse());
      PackedAdd(allocs, va, a);
      allocs := allocs[va := a];
      allocated_bytes := allocated_bytes + total;
    }

    method SumLayout(layout: seq<nat>) returns (total: nat)
      ensures total == SumOf(layout)
    {
      total := 0;
      for i := 0 to |layout|
        invariant total == SumOf(layout[..i])
      {
        AddOne(layout, i);
        total := total + layout[i];
      }
      assert layout[..|layout|] == layout;
    }

    /** Reserve, obtain, map and grant; or leave everything as it was. */
    method Allocate(size: nat) returns (r: Outcome)
      requires Valid()
      modifies this`allocs, this`allocated_bytes, pmm, drv`s, drv`used, drv`next, drv`top
      ensures Valid() && Small() == old(Small()) && pmm.small_in_use_bytes == old(pmm.small_in_use_bytes)
      ensures pmm.Purges() == old(pmm.Purges()) && pmm.small_free == old(pmm.small_free)
      ensures r.ZeroSize? <==> size == 0
      ensures !r.Pointer? ==> allocs == old(allocs) && allocated_bytes == old(allocated_bytes) && Mine() == old(Mine())
                              && drv.s.maps == old(drv.s.maps) && drv.s.reserved == old(drv.s.reserved)
                              && BackHome(old(pmm.place), pmm.place)
      ensures r.Failed? && !drv.refuses && !drv.faults ==> old(drv.used) + RoundUp(size, UNIT) > drv.capacity
      ensures size > 0 && !drv.refuses && !drv.faults
              ==> (r.Pointer? <==> old(drv.used) + Shortfall(Pack(size), old(pmm.large_free)) <= drv.capacity)
      ensures r.Failed? && !drv.faults ==> Short(Pack(size), old(pmm.large_free), old(drv.used))
      ensures r.Pointer? ==> r.va !in old(allocs) && r.va in allocs && r.va > 0
                             && allocs == old(allocs)[r.va := Allocation(r.va, RoundUp(size, UNIT), size, allocs[r.va].blocks)]
                             && |allocs[r.va].blocks| == GreedyCount(size)
                             && allocated_bytes == old(allocated_bytes) + RoundUp(size, UNIT)
                             && Without(Mine(), r.va, allocs[r.va]) == old(Mine())
      ensures r.Pointer? ==> Sizes(allocs[r.va].blocks) == Pack(size)
                             && drv.used == old(drv.used) + Shortfall(Pack(size), old(pmm.large_free)) <= drv.capacity
                             && Drawn(old(pmm.large_free), Pack(size), pmm.large_free)
    {
      if size == 0 {
        return ZeroSize;
      }
      var layout := ComputeLayout(size);
      var total := SumLayout(layout);
      var base, s := Reserve(total);
      if base.None? {
        return Failed;
      }
      var va := base.value;
      ShortfallAtMost(layout, pmm.large_free);
      var blocks, ok := MapAndGrant(s, va, total, layout);
      if !ok {
        PartsAreAll(old(drv.s), old(pmm.place), drv.s, pmm.place, small_base);
        return Failed;
      }
      Record(s, va, total, size, blocks);
      drv.UsedIsLive();
      r := Pointer(va);
    }

    method MapAndGrant(ghost s: Snapshot, va: nat, total: nat, layout: seq<nat>) returns (blocks: seq<PhysicalBlock>, ok: bool)
      requires InProgress(s, va, total, va, [], 0, {}) && LegalList(layout) && SumOf(layout) == total
      modifies pmm, drv`s, drv`used, drv`next
      ensures ok ==> InProgress(s, va, total, va, blocks, |blocks|, MayUse()) && Total(blocks) == total && Sizes(blocks) == layout
      ensures ok ==> drv.used == old(drv.used) + Shortfall(layout, old(pmm.large_free))
                     && Drawn(old(pmm.large_free), layout, pmm.large_free)
      ensures !ok ==> pmm.Valid() && Mine() == s.rest && Small() == s.small && BackHome(s.place, pmm.place)
      ensures !ok ==> pmm.large_in_use_bytes == s.in_use && pmm.small_in_use_bytes == s.small_in_use
      ensures !ok ==> pmm.Purges() == s.purges && pmm.small_free == s.small_free
      ensures !ok && !drv.faults ==> Short(layout, old(pmm.large_free), old(drv.used))
    {
      var num_mapped;
      blocks, num_mapped, ok := MapBlocks(s, va, total, layout);
      if ok {
        ok := GrantAll(s, va, total, blocks);
      }
      if !ok {
        ReturnBlocks(s, va, total, blocks, num_mapped, {});
        CustodyDone(s.place, pmm.place);
      }
    }

    /** Take an allocation apart: its blocks go to their buckets, its reservation to the driver. */
    method Free(ptr: nat) returns (ok: bool)
      requires Valid()
      modifies this`allocs, this`allocated_bytes, pmm, drv`s
      ensures Valid() && Small() == old(Small()) && pmm.small_in_use_bytes == old(pmm.small_in_use_bytes)
      ensures pmm.Purges() == old(pmm.Purges()) && pmm.small_free == old(pmm.small_free)
      ensures drv.s.live == old(drv.s.live)
      ensures if ptr in old(allocs) then Added(old(pmm.large_free), Sizes(old(allocs)[ptr].blocks), pmm.large_free)
              else pmm.View() == old(pmm.View())
      ensures ok <==> ptr == 0 || ptr in old(allocs)
      ensures ptr !in old(allocs) ==> allocs == old(allocs) && Mine() == old(Mine()) && allocated_bytes == old(allocated_bytes)
      ensures ptr in old(allocs) ==> var a := old(allocs)[ptr];
                && allocs == old(allocs) - {ptr} && allocated_bytes == old(allocated_bytes) - a.va_size
                && Mine() == Without(old(Mine()), ptr, a)
                && BackHome(HomeOf(old(pmm.place), Uses(a.blocks)), pmm.place)
    {
      if ptr == 0 {
        NullIsNotAllocated(Mine(), allocs);
        return true;
      }
      if ptr !in allocs {
        return false;
      }
      var alloc := allocs[ptr];
      ghost var s := Detach(ptr);
      PackedDrop(allocs, ptr);
      allocs := allocs - {ptr};
      allocated_bytes := allocated_bytes - alloc.va_size;
      ReturnBlocks(s, ptr, alloc.va_size, alloc.blocks, |alloc.blocks|, MayUse());
      CustodyDone(s.place, pmm.place);
      ok := true;
    }

    /** Freeing an allocation and making it again takes its blocks from the buckets: it succeeds
        unless a mapping call fails, and no block is created. */
    method FreeAndRepeat(ptr: nat) returns (r: Outcome)
      requires Valid() && ptr in allocs
      modifies this`allocs, this`allocated_bytes, pmm, drv`s, drv`used, drv`next, drv`top
      ensures Valid() && (!drv.faults ==> r.Pointer?)
      ensures r.Pointer? ==> drv.used == old(drv.used)
                             && r.va in allocs && allocs[r.va].requested_size == old(allocs)[ptr].requested_size
    {
      var size := allocs[ptr].requested_size;
      ghost var rest, records, large := Mine(), allocs, pmm.large_free;
      var ok := Free(ptr);
      SuppliesItself(rest, records, ptr, large, pmm.large_free);
      r := Allocate(size);
    }

    /** A live allocation, seen as one in progress on top of everything else. */
    ghost method Detach(ptr: nat) returns (s: Snapshot)
      requires Valid() && ptr in allocs
      ensures var a := allocs[ptr];
              && InProgress(s, ptr, a.va_size, ptr, a.blocks, |a.blocks|, MayUse())
              && s == Snapshot(Without(Mine(), ptr, a), Small(), HomeOf(pmm.place, Uses(a.blocks)),
                               pmm.large_in_use_bytes - a.va_size, pmm.small_in_use_bytes, pmm.Purges(), pmm.small_free)
              && Records(s.rest, allocs - {ptr}).Sound? && Used(s.rest).Sound? && Grants(s.rest, MayUse(), {}, {}).Sound?
              && Sum(s.rest.reserved) == allocated_bytes - a.va_size
    {
      var a := allocs[ptr];
      var r := Mine();
      LiveIsOverlay(r, allocs, ptr, MayUse());
      s := Snapshot(Without(r, ptr, a), Small(), HomeOf(pmm.place, Uses(a.blocks)), pmm.large_in_use_bytes - a.va_size,
                    pmm.small_in_use_bytes, pmm.Purges(), pmm.small_free);
      WithoutRecords(r, allocs, ptr);
      WithoutUsed(r, ptr, a);
      WithoutAccess(r, ptr, a, MayUse());
      OverlaySum(s.rest, r, ptr, a.va_size, ptr, a.blocks, |a.blocks|, MayUse());
      CustodyOfLive(drv.s, pmm.place, small_base, s.rest, ptr, a, MayUse());
      NotSmall(r, allocs, ptr, small_base, drv.s, pmm.place);
    }

    /** Grant a new peer access to every live allocation, and to all future ones. */
    method AddPeerDevice(peer: int) returns (ok: bool)
      requires Valid()
      modifies this`peer_devices, drv`s
      ensures ok && Valid() && Small() == old(Small()) && drv.s == old(drv.s).(access := drv.s.access)
      ensures peer_devices == if peer in old(peer_devices) then old(peer_devices) else old(peer_devices) + [peer]
      ensures forall v <- Mine().maps :: v in Mine().access
                && forall x :: x in Mine().access[v] <==> x == device || x in peer_devices
    {
      for i := 0 to |peer_devices|
        invariant peer !in peer_devices[..i]
      {
        if peer_devices[i] == peer {
          AccessByDevice();
          return true;
        }
      }
      GrantPeer(peer);
      PeerAdded(Mine(), allocs, device, peer_devices, peer);
      peer_devices := peer_devices + [peer];
      AccessByDevice();
      ok := true;
    }

    /** Each mapping of an allocation grants access to the owning device and its peers, and no others. */
    lemma AccessByDevice()
      requires Valid()
      ensures forall v <- Mine().maps :: v in Mine().access
                && forall x :: x in Mine().access[v] <==> x == device || x in peer_devices
    {
      forall v | v in Mine().maps
        ensures v in Mine().access && forall x :: x in Mine().access[v] <==> x == device || x in peer_devices
      {
        MappingAccess(Mine(), MayUse(), v);
      }
    }

    method GrantPeer(peer: int)
      requires Valid()
      modifies drv`s
      ensures pmm.Valid() && drv.s == old(drv.s).(access := drv.s.access) && Small() == old(Small())
      ensures Mine() == old(Mine()).(access := Mine().access)
      ensures Records(Mine(), allocs).Sound? && Used(Mine()).Sound?
      ensures Grants(Mine(), MayUse(), allocs.Keys, {peer}).Sound?
    {
      ghost var d, small, r := drv.s, Small(), Mine();
      var todo := allocs.Keys;
      PeerStart(Mine(), MayUse(), {peer});
      assert allocs.Keys - todo == {};
      while todo != {}
        invariant todo <= allocs.Keys
        invariant pmm.Valid() && drv.s == d.(access := drv.s.access) && Small() == small
        invariant Mine() == r.(access := Mine().access) && Records(Mine(), allocs).Sound? && Used(Mine()).Sound?
        invariant Grants(Mine(), MayUse(), allocs.Keys - todo, {peer}).Sound?
        decreases todo
      {
        var va :| va in todo;
        GrantPeerTo(va, peer, allocs.Keys - todo);
        assert allocs.Keys - todo + {va} == allocs.Keys - (todo - {va});
        todo := todo - {va};
      }
      assert allocs.Keys - {} == allocs.Keys;
    }

    method GrantPeerTo(va: nat, peer: int, ghost done: set<nat>)
      requires pmm.drv == drv && pmm.Valid() && va in allocs
      requires Records(Mine(), allocs).Sound? && Used(Mine()).Sound? && Grants(Mine(), MayUse(), done, {peer}).Sound?
      modifies drv`s
      ensures pmm.Valid() && drv.s == old(drv.s).(access := drv.s.access) && Small() == old(Small())
      ensures Mine() == old(Mine()).(access := Mine().access) && Records(Mine(), allocs).Sound? && Used(Mine()).Sound?
      ensures Grants(Mine(), MayUse(), done + {va}, {peer}).Sound?
    {
      ghost var d, r := drv.s, Mine();
      RecordOf(r, allocs, va);
      var alloc := allocs[va];
      RecordCovered(r, va, alloc);
      CoveredByPart(d, pmm.place, small_base, va, alloc.va_size);
      assert D.Inside(d.reserved, va, va, alloc.va_size);
      GrantedIn(d, pmm.place, va, va, alloc.va_size, {peer}, small_base);
      OtherRegionsOutside(d, va, va, alloc.va_size);
      GrantAllocation(r, allocs, va, MayUse(), done, {peer});
      var ok := drv.MemSetAccess(alloc.va_base, alloc.va_size, {peer}, true);
      OtherKeeps(d, pmm.View(), drv.s);
    }

    /** True exactly for the start of a reservation that is not the small allocator's; that
        reservation is then mapped from end to end. */
    method Owns(ptr: nat) returns (r: bool)
      requires Valid()
      ensures r <==> ptr in drv.s.reserved && ptr != small_base
      ensures r ==> ptr in allocs && drv.s.reserved[ptr] == allocs[ptr].va_size && D.Covered(drv.s.maps, ptr, drv.s.reserved[ptr])
    {
      r := ptr in allocs;
      ReservedIsRecorded(Mine(), allocs, ptr);
      if r {
        RecordOf(Mine(), allocs, ptr);
        RecordCovered(Mine(), ptr, allocs[ptr]);
        CoveredByPart(drv.s, pmm.place, small_base, ptr, allocs[ptr].va_size);
      }
    }
  }
}

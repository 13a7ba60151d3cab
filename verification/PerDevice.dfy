/** PerDeviceState: the block manager and the two sub-allocators of one device, working on one
    driver (include/vmm_allocator.h:88-104). */
module PerDevice {
  import opened Common
  import opened Sums
  import opened Tiling
  import opened Ranges
  import opened SmallPages
  import opened FreePages
  import opened Parts
  import opened Pools
  import opened Reclaim
  import opened Room
  import opened Abandoned
  import opened Layout
  import opened Supply
  import opened PhysicalMemory
  import opened Ledger
  import R = Ranges
  import S = SmallAllocator
  import L = LargeAllocator
  import B = LargeBlocks
  import O = Ownership
  import G = SmallPages
  import D = CudaDriver

  lemma ReservationsApart(d: D.State, base: nat, va: nat)
    requires D.Sane(d).Sound? && base in d.reserved && va in d.reserved && va != base
    ensures !(base <= va < base + d.reserved[base])
  {
    assert Open(Seal);
    assert base < va || va < base;
  }

  lemma RestrictSkip(m: map<nat, nat>, k: nat, keys: set<nat>)
    requires k !in keys
    ensures SumOver(m, keys) == SumOver(m - {k}, keys)
  {
    assert Restrict(m, keys) == Restrict(m - {k}, keys);
  }

  lemma AllReserved(r: Part, allocs: B.Allocations, live: set<nat>)
    requires B.Records(r, allocs).Sound? && allocs.Keys <= live
    ensures SumOver(r.reserved, live) == Sum(r.reserved)
  {
    assert B.OpenRecords(Seal);
    assert Restrict(r.reserved, live) == r.reserved;
  }

  lemma PeerJoins(device: int, peers: seq<int>, peer: int, peers': seq<int>)
    requires peers' == if peer in peers then peers else peers + [peer]
    ensures Devices(device, peers') == Devices(device, peers) + {peer}
  {
  }

  /** The requested sizes on record. */
  ghost function RequestsOf(allocs: B.Allocations): map<nat, nat> {
    map va | va in allocs :: allocs[va].requested_size
  }

  lemma RequestAdded(allocs: B.Allocations, va: nat, a: B.Allocation, r: Part, was: Part)
    requires B.Without(r, va, a) == was
    ensures RequestsOf(allocs[va := a]) == RequestsOf(allocs)[va := a.requested_size]
    ensures r.reserved - {va} == was.reserved
  {
  }

  lemma RequestDropped(allocs: B.Allocations, ptr: nat)
    ensures RequestsOf(allocs - {ptr}) == RequestsOf(allocs) - {ptr}
    ensures ptr in RequestsOf(allocs) <==> ptr in allocs
    ensures ptr in allocs ==> RequestsOf(allocs)[ptr] == allocs[ptr].requested_size
  {
  }

  lemma SaneIsOk(d: D.State)
    requires D.Sane(d).Sound?
    ensures D.Ok(d)
  {
    assert Open(Seal);
  }

  /** An address lies in one reservation only. */
  lemma OneReservation(d: D.State, p: nat, q: nat, base: nat, x: nat)
    requires D.Sane(d).Sound?
    ensures p in d.reserved && q in d.reserved && p <= x < p + d.reserved[p] && q <= x < q + d.reserved[q] ==> p == q
    ensures p in d.reserved && base in d.reserved && p <= x < p + d.reserved[p] && base <= x < base + d.reserved[base] ==> p == base
    ensures q in d.reserved && base in d.reserved && q <= x < q + d.reserved[q] && base <= x < base + d.reserved[base] ==> q == base
  {
    assert Open(Seal);
    assert p < q || p == q || q < p;
    assert p < base || p == base || base < p;
    assert q < base || q == base || base < q;
  }

  lemma SmallRangesApart(r: R.View, p: nat, q: nat)
    requires Audited(r) && p in r.allocated_ && q in r.allocated_
    ensures p < q ==> p + r.allocated_[p] <= q
    ensures q < p ==> q + r.allocated_[q] <= p
  {
    LiveTile(r, p);
    LiveTile(r, q);
    assert OpenShape(Seal);
  }

  /** What init does for one device. */
  method InitDevice(device: int, drv: D.Driver, va_size: nat) returns (ds: PerDeviceState)
    requires drv.Valid() && drv.s == D.EMPTY && va_size > 0
    modifies drv`s, drv`top
    ensures ds.Valid() && ds.drv == drv && ds.small_alloc.device == device
    ensures ds.small_alloc.allocated_ == map[] && ds.large_alloc.allocs == map[] && ds.small_stats != ds.large_stats
    ensures ds.small_alloc.va_size == RoundUp(va_size, PAGE) && ds.small_alloc.high_water == 0
    ensures ds.small_alloc.peer_devices == [] == ds.large_alloc.peer_devices
    ensures ds.pmm.Purges() == (0, 0) && ds.num_alloc_retries == 0 && ds.num_ooms == 0
    ensures ds.small_stats.Tally(0, 0) && ds.large_stats.Tally(0, 0)
  {
    var pmm := new PhysicalMemoryManager(device, drv);
    var small_alloc := new S.SmallAllocator(device, pmm, va_size);
    S.SmallBaseReserved(small_alloc);
    var large_alloc := new L.LargeAllocator(device, pmm, small_alloc.va_base);
    ds := new PerDeviceState(pmm, small_alloc, large_alloc);
  }

  ghost predicate OpenDevice(s: Seal) {
    true
  }

  class PerDeviceState {
    const drv: D.Driver
    const pmm: PhysicalMemoryManager
    const small_alloc: S.SmallAllocator
    const large_alloc: L.LargeAllocator

    const small_stats: PoolStats
    const large_stats: PoolStats
    var num_alloc_retries: nat
    var num_ooms: nat

    /** The sub-allocators share the device's manager and driver, and keep to their parts. */
    ghost predicate Sharing()
      reads pmm, drv, small_alloc, large_alloc
    {
      && small_alloc.pmm == pmm && small_alloc.drv == drv && large_alloc.pmm == pmm && large_alloc.drv == drv
      && small_alloc.device == large_alloc.device && large_alloc.small_base == small_alloc.va_base
      && small_alloc.Valid() && large_alloc.Valid()
      && small_alloc.MayUse() == large_alloc.MayUse()
    }

    ghost function Health(): Verdict
      reads pmm, drv, small_alloc, large_alloc
    {
      if forall s {:trigger OpenDevice(s)} :: OpenDevice(s) ==> Sharing() then Sound else Broken
    }

    ghost predicate Valid()
      reads pmm, drv, small_alloc, large_alloc
    {
      Health().Sound?
    }

    constructor (pmm: PhysicalMemoryManager, small_alloc: S.SmallAllocator, large_alloc: L.LargeAllocator)
      requires small_alloc.Valid() && large_alloc.Valid() && small_alloc.pmm == pmm == large_alloc.pmm
      requires small_alloc.drv == pmm.drv == large_alloc.drv && large_alloc.small_base == small_alloc.va_base
      requires small_alloc.device == large_alloc.device && small_alloc.MayUse() == large_alloc.MayUse()
      ensures Valid() && this.drv == pmm.drv && this.pmm == pmm
      ensures this.small_alloc == small_alloc && this.large_alloc == large_alloc
      ensures small_stats != large_stats && small_stats.Tally(0, 0) && large_stats.Tally(0, 0)
      ensures num_alloc_retries == 0 && num_ooms == 0
    {
      this.drv, this.pmm, this.small_alloc, this.large_alloc := pmm.drv, pmm, small_alloc, large_alloc;
      num_alloc_retries, num_ooms := 0, 0;
      small_stats := new PoolStats();
      large_stats := new PoolStats();
    }

    ghost function Large(): Part
      reads pmm, drv, small_alloc
    {
      RestPart(drv.s, pmm.place, small_alloc.va_base)
    }

    ghost function Small(): Part
      reads pmm, drv, small_alloc
    {
      SmallPart(drv.s, pmm.place, small_alloc.va_base)
    }

    /** What stands when the allocations at the addresses not in live are freed, before anything is
        reclaimed. */
    ghost function Standing(live: set<nat>): Residue
      reads pmm, drv, small_alloc, large_alloc
    {
      StandingOf(small_alloc.Ranges(), small_alloc.page_mapped, live, SumOver(Large().reserved, live))
    }

    /** What stays when everything but the allocations at the addresses in live is freed and
        reclaimed: whole reservations on the large side, needed pages on the small side. */
    ghost function Remains(live: set<nat>): Residue
      reads pmm, drv, small_alloc, large_alloc
    {
      Reclaimed(Standing(live), small_alloc.va_base)
    }

    /** All that is there now. */
    ghost function Everything(): Residue
      reads pmm, drv, small_alloc, large_alloc
    {
      Residue(KeptOf(small_alloc.tiles), small_alloc.page_mapped, small_alloc.high_water, Sum(Large().reserved))
    }

    /** Bytes no reclaiming can give back while the allocations at the addresses in live stay. */
    ghost function Unreclaimable(live: set<nat>): nat
      reads pmm, drv, small_alloc, large_alloc
    {
      BytesOf(Remains(live))
    }

    /** The requested sizes of the live large allocations. */
    ghost function Larges(): map<nat, nat>
      reads large_alloc
    {
      RequestsOf(large_alloc.allocs)
    }

    ghost function Smalls(): map<nat, nat>
      reads small_alloc
    {
      small_alloc.allocated_
    }

    /** A small request would be met now. */
    ghost predicate SmallFits(size: nat)
      reads pmm, pmm.drv`used, small_alloc
    {
      Fits(small_alloc.Ranges(), small_alloc.page_mapped, pmm.SmallRoom(), AlignedSize(size))
    }

    /** A small request would be met within what stands. */
    ghost predicate SmallFitsIn(left: Residue, room: int, size: nat) {
      FitsWithin(left, small_alloc.va_base, small_alloc.va_size, room, AlignedSize(size))
    }

    /** A small request would be met beside what stays, once everything else is reclaimed. */
    ghost predicate SmallFitsBeside(left: Residue, size: nat) {
      SmallFitsIn(left, drv.capacity - BytesOf(left), size)
    }

    lemma SmallFitsHere(left: Residue, size: nat)
      requires Valid() && left == Everything()
      ensures SmallFits(size) <==> SmallFitsIn(left, pmm.SmallRoom(), size)
    {
      assert OpenDevice(Seal);
      FitsIsFitsWithin(small_alloc.Ranges(), small_alloc.page_mapped, pmm.SmallRoom(), left, AlignedSize(size));
    }

    /** When everything has been reclaimed, the room for small blocks is what the capacity leaves. */
    lemma RoomReclaimed()
      requires Valid() && drv.used == pmm.small_in_use_bytes + pmm.large_in_use_bytes
      ensures pmm.SmallRoom() == drv.capacity - drv.used
    {
      assert OpenDevice(Seal);
      HeldIsLive(drv.s, pmm.View());
      drv.UsedIsLive();
    }

    /** A large request would be met now: the device has room for the blocks the buckets lack. */
    ghost predicate LargeFits(size: nat)
      reads pmm, drv
    {
      drv.used + Shortfall(Pack(size), pmm.large_free) <= drv.capacity
    }

    /** A large request would be met beside what stays, once everything else is reclaimed. */
    ghost predicate LargeFitsBeside(left: Residue, size: nat) {
      BytesOf(left) + RoundUp(size, UNIT) <= drv.capacity
    }

    /** The device has room for a large request even if none of its blocks is cached. */
    ghost predicate RoomFor(size: nat)
      reads drv
    {
      drv.used + RoundUp(size, UNIT) <= drv.capacity
    }

    lemma AllStands(live: set<nat>)
      requires Valid() && Smalls().Keys <= live && Larges().Keys <= live
      ensures Standing(live) == Everything()
    {
      assert OpenDevice(Seal);
      assert Staying(KeptOf(small_alloc.tiles), small_alloc.allocated_, live) == KeptOf(small_alloc.tiles);
      AllReserved(Large(), large_alloc.allocs, live);
    }

    /** The bytes handed out by the driver, the room for small blocks, and the purge statistics. */
    ghost function Unspent(): (int, int, (nat, nat))
      reads pmm`small_cached_bytes, drv`used, pmm.drv`used, pmm`purge_count, pmm`total_purged_bytes
    {
      (drv.used, pmm.SmallRoom(), pmm.Purges())
    }

    /** Freeing a small allocation. */
    method FreeSmall(ptr: nat) returns (ok: bool)
      requires Valid()
      modifies small_alloc
      ensures Valid()
      ensures ok <==> ptr == 0 || ptr in old(Smalls())
      ensures Smalls() == old(Smalls()) - {ptr}
      ensures forall live: set<nat> {:trigger Standing(live)} :: ptr !in live ==> Standing(live) == old(Standing(live))
      ensures Unspent() == old(Unspent())
    {
      assert OpenDevice(Seal);
      ghost var kept, was := KeptOf(small_alloc.tiles), small_alloc.allocated_;
      ok := small_alloc.Free(ptr);
      assert was - {ptr} == Smalls();
      forall live: set<nat> {:trigger Standing(live)} | ptr !in live
        ensures Standing(live) == old(Standing(live))
      {
        if ptr in was {
          FreeKeepsStaying(kept, was, live, ptr);
        }
      }
    }

    /** The small allocator has worked on its own part; the large one is as sound as before. */
    lemma LargeUntouched(r: Part, in_use: int)
      requires small_alloc.pmm == pmm && small_alloc.drv == drv && large_alloc.pmm == pmm && large_alloc.drv == drv
      requires large_alloc.small_base == small_alloc.va_base && small_alloc.PagesValid()
      requires Large() == r && pmm.large_in_use_bytes == in_use
      requires B.Records(r, large_alloc.allocs).Sound? && B.Used(r).Sound? && B.Grants(r, large_alloc.MayUse(), {}, {}).Sound?
      requires large_alloc.allocated_bytes == in_use == Sum(r.reserved) && L.Packed(large_alloc.allocs).Sound?
      ensures large_alloc.Valid()
    {
      S.SmallBaseReserved(small_alloc);
    }

    /** The call into the small allocator. */
    method PlaceSmall(size: nat) returns (r: S.Outcome, ghost at: nat)
      requires Valid()
      modifies small_alloc, pmm, drv`s, drv`used, drv`next
      ensures Valid() && Large() == old(Large()) && pmm.Purges() == old(pmm.Purges())
      ensures r.Pointer? ==> r.va !in old(Smalls()) && r.va > 0 && Smalls() == old(Smalls())[r.va := AlignedSize(size)]
      ensures !r.Pointer? ==> Smalls() == old(Smalls())
      ensures !drv.refuses ==> (r.Pointer? <==> old(SmallFits(size)))
      ensures r.VaExhausted? ==> small_alloc.Ranges() == old(small_alloc.Ranges()) && small_alloc.page_mapped == old(small_alloc.page_mapped)
      ensures Audited(old(small_alloc.Ranges()))
      ensures r.OutOfMemory? ==> S.Taken(old(small_alloc.Ranges()), at, AlignedSize(size), small_alloc.Ranges())
                                 && MoreMapped(old(small_alloc.page_mapped), small_alloc.page_mapped, small_alloc.va_base, at, AlignedSize(size))
    {
      assert OpenDevice(Seal);
      ghost var v, sz := small_alloc.Ranges(), 0;
      r, at, sz := small_alloc.Allocate(size);
      LargeUntouched(old(Large()), old(pmm.large_in_use_bytes));
      if !r.VaExhausted? {
        S.PlacedMeans(v, at, sz, small_alloc.Ranges(), r.Pointer?);
      }
      S.NullIsNotAllocated(small_alloc.Ranges());
    }

    method AllocSmall(size: nat) returns (r: S.Outcome)
      requires Valid()
      modifies small_alloc, pmm, drv`s, drv`used, drv`next
      ensures Valid() && Large() == old(Large()) && pmm.Purges() == old(pmm.Purges())
      ensures r.Pointer? ==> r.va !in old(Smalls()) && r.va !in Larges() && r.va > 0
                             && Smalls() == old(Smalls())[r.va := AlignedSize(size)]
      ensures !r.Pointer? ==> Smalls() == old(Smalls())
      ensures !r.Pointer? ==> forall live: set<nat> {:trigger Remains(live)} ::
                AfterFailure(old(Remains(live)), Remains(live), small_alloc.va_base, AlignedSize(size))
      ensures !drv.refuses ==> (r.Pointer? <==> old(SmallFits(size)))
    {
      ghost var v, mapped, reserved := small_alloc.Ranges(), small_alloc.page_mapped, Large().reserved;
      ghost var at;
      r, at := PlaceSmall(size);
      if r.Pointer? {
        SmallNotLarge(r.va);
      } else if r.OutOfMemory? {
        forall live: set<nat> {:trigger Remains(live)}
          ensures AfterFailure(Reclaimed(StandingOf(v, mapped, live, SumOver(reserved, live)), v.base), Remains(live),
                               small_alloc.va_base, AlignedSize(size))
        {
          FailureAbandons(v, at, AlignedSize(size), small_alloc.Ranges(), mapped, small_alloc.page_mapped, live, SumOver(reserved, live));
        }
      }
    }

    /** No address is both a small and a large allocation. */
    lemma SmallNotLarge(ptr: nat)
      requires Valid() && ptr in small_alloc.allocated_
      ensures ptr !in large_alloc.allocs
    {
      assert OpenDevice(Seal);
      LiveTile(small_alloc.Ranges(), ptr);
      S.SmallBaseReserved(small_alloc);
      if ptr in large_alloc.allocs {
        L.RecordOf(Large(), large_alloc.allocs, ptr);
        ReservationsApart(drv.s, small_alloc.va_base, ptr);
      }
    }

    /** The large allocator has worked on its own part; the small one is as sound as before. */
    lemma SmallUntouched(r: Part, in_use: int)
      requires small_alloc.pmm == pmm && small_alloc.drv == drv && pmm.drv == drv && pmm.Valid()
      requires Small() == r && pmm.small_in_use_bytes == in_use && small_alloc.RangesValid()
      requires |small_alloc.page_mapped| == small_alloc.num_pages == |small_alloc.page_blocks|
      requires small_alloc.va_size == small_alloc.num_pages * PAGE
      requires Pages(r, in_use, small_alloc.PageTable()).Sound?
      requires Access(r.access, small_alloc.va_base, small_alloc.page_mapped, small_alloc.MayUse(), 0, {}).Sound?
      requires Backed(small_alloc.allocated_, small_alloc.va_base, small_alloc.page_mapped).Sound?
      ensures small_alloc.Valid()
    {
    }

    /** The call into the large allocator. */
    method PlaceLarge(size: nat) returns (r: L.Outcome)
      requires Valid()
      modifies large_alloc, pmm, drv`s, drv`used, drv`next, drv`top
      ensures Valid() && pmm.Purges() == old(pmm.Purges())
      ensures r.ZeroSize? <==> size == 0
      ensures r.Pointer? ==> r.va in large_alloc.allocs && r.va !in old(Larges()) && r.va > 0 && Larges() == old(Larges())[r.va := size]
                             && Large().reserved - {r.va} == old(Large().reserved)
                             && large_alloc.allocs[r.va].va_size == RoundUp(size, UNIT)
      ensures !r.Pointer? ==> Larges() == old(Larges()) && Large().reserved == old(Large().reserved)
      ensures r.Pointer? ==> drv.used == old(drv.used) + Shortfall(Pack(size), old(pmm.large_free))
      ensures r.Failed? && !drv.refuses && !drv.faults ==> old(drv.used) + RoundUp(size, UNIT) > drv.capacity
      ensures size > 0 && !drv.refuses && !drv.faults ==> (r.Pointer? <==> old(LargeFits(size)))
    {
      assert OpenDevice(Seal);
      ghost var allocs := large_alloc.allocs;
      r := large_alloc.Allocate(size);
      if r.Pointer? {
        RequestAdded(allocs, r.va, large_alloc.allocs[r.va], Large(), old(Large()));
      }
      SmallUntouched(old(Small()), old(pmm.small_in_use_bytes));
    }

    method AllocLarge(size: nat) returns (r: L.Outcome)
      requires Valid()
      modifies large_alloc, pmm, drv`s, drv`used, drv`next, drv`top
      ensures Valid() && pmm.Purges() == old(pmm.Purges())
      ensures r.ZeroSize? <==> size == 0
      ensures r.Pointer? ==> r.va !in old(Larges()) && r.va !in Smalls() && r.va > 0 && Larges() == old(Larges())[r.va := size]
      ensures !r.Pointer? ==> Larges() == old(Larges())
      ensures forall live: set<nat> {:trigger Standing(live)} :: (r.Pointer? ==> r.va !in live) ==> Standing(live) == old(Standing(live))
      ensures r.Pointer? ==> forall live: set<nat> {:trigger Remains(live)} :: r.va !in live ==> LargeFitsBeside(Remains(live), size)
      ensures r.Pointer? ==> drv.used == old(drv.used) + Shortfall(Pack(size), old(pmm.large_free))
      ensures r.Failed? && !drv.refuses && !drv.faults ==> old(drv.used) + RoundUp(size, UNIT) > drv.capacity
      ensures size > 0 && !drv.refuses && !drv.faults ==> (r.Pointer? <==> old(LargeFits(size)))
    {
      ghost var reserved := Large().reserved;
      r := PlaceLarge(size);
      if r.Pointer? {
        LargeNotSmall(r.va);
        SumWithout(Large().reserved, reserved, r.va);
        LargeGrewAll(reserved, r.va);
      }
    }

    lemma LargeGrewAll(reserved: map<nat, nat>, va: nat)
      requires Valid() && va in large_alloc.allocs && reserved == Large().reserved - {va}
      ensures forall live: set<nat> {:trigger Remains(live)} :: va !in live ==>
                BytesOf(Remains(live)) + large_alloc.allocs[va].va_size <= drv.capacity
    {
      forall live: set<nat> {:trigger Remains(live)} | va !in live
        ensures BytesOf(Remains(live)) + large_alloc.allocs[va].va_size <= drv.capacity
      {
        LargeGrew(reserved, live, va);
      }
    }

    /** The reservations of the allocations in live do not depend on one at ptr. */
    lemma SumWithout(reserved: map<nat, nat>, reserved': map<nat, nat>, ptr: nat)
      requires reserved' == reserved - {ptr}
      ensures forall live: set<nat> {:trigger SumOver(reserved', live)} :: ptr !in live ==> SumOver(reserved', live) == SumOver(reserved, live)
      ensures forall live: set<nat> {:trigger SumOver(reserved, live)} :: ptr !in live ==> SumOver(reserved', live) == SumOver(reserved, live)
    {
      forall live: set<nat> {:trigger SumOver(reserved', live)} | ptr !in live
        ensures SumOver(reserved', live) == SumOver(reserved, live)
      {
        RestrictSkip(reserved, ptr, live);
      }
    }

    lemma LargeNotSmall(ptr: nat)
      requires Valid() && ptr in large_alloc.allocs
      ensures ptr !in small_alloc.allocated_
    {
      assert OpenDevice(Seal);
      if ptr in small_alloc.allocated_ {
        SmallNotLarge(ptr);
      }
    }

    lemma LargeGrew(reserved: map<nat, nat>, live: set<nat>, va: nat)
      requires Valid() && va in large_alloc.allocs && reserved == Large().reserved - {va} && va !in live
      ensures SumOver(Large().reserved, live) == SumOver(reserved, live)
      ensures Unreclaimable(live) + large_alloc.allocs[va].va_size <= drv.capacity
    {
      assert OpenDevice(Seal);
      L.RecordOf(Large(), large_alloc.allocs, va);
      RestrictSkip(Large().reserved, va, live);
      AtMostInUse(live, va);
    }

    method FreeLarge(ptr: nat) returns (ok: bool)
      requires Valid()
      modifies large_alloc, pmm, drv`s
      ensures Valid()
      ensures ok <==> ptr == 0 || ptr in old(Larges())
      ensures Larges() == old(Larges()) - {ptr}
      ensures forall live: set<nat> {:trigger Standing(live)} :: ptr !in live ==> Standing(live) == old(Standing(live))
      ensures Unspent() == old(Unspent())
      ensures Added(old(pmm.large_free), if ptr in old(Larges()) then Pack(old(Larges())[ptr]) else [], pmm.large_free)
    {
      assert OpenDevice(Seal);
      ghost var reserved := Large().reserved;
      SmallCacheBytes();
      L.PackedSizes(large_alloc.allocs, ptr);
      RequestDropped(large_alloc.allocs, ptr);
      ok := large_alloc.Free(ptr);
      SmallUntouched(old(Small()), old(pmm.small_in_use_bytes));
      SmallCacheBytes();
      if ptr in old(Larges()) {
        SumWithout(reserved, Large().reserved, ptr);
      }
    }

    lemma SmallCacheBytes()
      requires pmm.Valid()
      ensures pmm.small_cached_bytes == Total(pmm.small_free)
    {
      CountersAreSums(pmm.drv.s, pmm.View());
    }

    /** One attempt to allocate, on the side the request is routed to. */
    method Attempt(size: nat, is_large: bool) returns (ptr: Option<nat>)
      requires Valid() && size > 0
      modifies small_alloc, large_alloc, pmm, drv`s, drv`used, drv`next, drv`top
      ensures Valid() && pmm.Purges() == old(pmm.Purges())
      ensures ptr.None? ==> Smalls() == old(Smalls()) && Larges() == old(Larges())
      ensures ptr.Some? ==> var p := ptr.value;
                && p > 0 && p !in old(Smalls()) && p !in old(Larges())
                && Smalls() == (if is_large then old(Smalls()) else old(Smalls())[p := AlignedSize(size)])
                && Larges() == (if is_large then old(Larges())[p := size] else old(Larges()))
      ensures is_large ==> forall live: set<nat> {:trigger Standing(live)} ::
                (ptr.Some? ==> ptr.value !in live) ==> Standing(live) == old(Standing(live))
      ensures is_large && ptr.Some? ==> forall live: set<nat> {:trigger Remains(live)} ::
                ptr.value !in live ==> LargeFitsBeside(Remains(live), size)
      ensures is_large && ptr.Some? ==> drv.used == old(drv.used) + Shortfall(Pack(size), old(pmm.large_free))
      ensures is_large && ptr.None? && !drv.refuses && !drv.faults ==> old(drv.used) + RoundUp(size, UNIT) > drv.capacity
      ensures is_large && !drv.refuses && !drv.faults ==> (ptr.Some? <==> old(LargeFits(size)))
      ensures !is_large && !drv.refuses ==> (ptr.Some? <==> old(SmallFits(size)))
      ensures !is_large && ptr.None? ==> forall live: set<nat> {:trigger Remains(live)} ::
                AfterFailure(old(Remains(live)), Remains(live), small_alloc.va_base, AlignedSize(size))
    {
      if is_large {
        var r := AllocLarge(size);
        ptr := if r.Pointer? then Some(r.va) else None;
      } else {
        var r := AllocSmall(size);
        ptr := if r.Pointer? then Some(r.va) else None;
      }
    }

    /** Free an allocation on the side it was made. */
    method Free(ptr: nat, is_large: bool) returns (ok: bool)
      requires Valid()
      modifies small_alloc, large_alloc, pmm, drv`s
      ensures Valid()
      ensures ok <==> ptr == 0 || if is_large then ptr in old(Larges()) else ptr in old(Smalls())
      ensures Smalls() == if is_large then old(Smalls()) else old(Smalls()) - {ptr}
      ensures Larges() == if is_large then old(Larges()) - {ptr} else old(Larges())
      ensures forall live: set<nat> {:trigger Standing(live)} :: ptr !in live ==> Standing(live) == old(Standing(live))
      ensures Unspent() == old(Unspent())
      ensures Added(old(pmm.large_free), if is_large && ptr in old(Larges()) then Pack(old(Larges())[ptr]) else [], pmm.large_free)
    {
      if is_large {
        ok := FreeLarge(ptr);
      } else {
        ok := FreeSmall(ptr);
      }
    }

    /** What cannot be reclaimed is in use, and what is in use fits the device. */
    lemma AtMostInUse(live: set<nat>, va: nat)
      requires Valid() && va in Large().reserved && va !in live
      ensures Unreclaimable(live) + Large().reserved[va] <= pmm.small_in_use_bytes + pmm.large_in_use_bytes <= drv.used <= drv.capacity
    {
      assert OpenDevice(Seal);
      SumOverAdd(Large().reserved, live, va);
      SumSubset(Restrict(Large().reserved, live + {va}), Large().reserved);
      SmallAtMostInUse(live);
      HeldIsLive(drv.s, pmm.View());
      drv.UsedIsLive();
    }

    lemma SmallAtMostInUse(live: set<nat>)
      requires Valid()
      ensures PAGE * Count(NeededPages(small_alloc.va_base, small_alloc.high_water,
                                       Staying(KeptOf(small_alloc.tiles), small_alloc.allocated_, live), small_alloc.page_mapped))
              <= pmm.small_in_use_bytes == PAGE * Count(small_alloc.page_mapped)
    {
      assert OpenDevice(Seal);
      InUseIsMapped(Small(), pmm.small_in_use_bytes, small_alloc.PageTable());
      NeededAtMost(small_alloc.va_base, small_alloc.high_water,
                   Staying(KeptOf(small_alloc.tiles), small_alloc.allocated_, live), small_alloc.page_mapped);
    }

    /** emptyCache of both sub-allocators; the large one caches nothing. */
    method EmptyCache()
      requires Valid()
      modifies small_alloc, pmm, drv`s
      ensures Valid() && Smalls() == old(Smalls()) && pmm.Purges() == old(pmm.Purges())
      ensures forall live: set<nat> {:trigger Remains(live)} :: Remains(live) == old(Remains(live))
      ensures forall live: set<nat> {:trigger Remains(live)} :: Smalls().Keys <= live && Larges().Keys <= live ==>
                Remains(live) == Everything() && BytesOf(Remains(live)) == pmm.small_in_use_bytes + pmm.large_in_use_bytes
    {
      assert OpenDevice(Seal);
      ghost var mapped := small_alloc.page_mapped;
      small_alloc.EmptyCache();
      LargeUntouched(old(Large()), old(pmm.large_in_use_bytes));
      forall live: set<nat> {:trigger Remains(live)}
        ensures Remains(live) == old(Remains(live))
      {
        EmptyCacheKeepsNeeded(small_alloc.Ranges(), small_alloc.allocated_, live, mapped, small_alloc.page_mapped);
      }
      forall live: set<nat> {:trigger Remains(live)} | Smalls().Keys <= live && Larges().Keys <= live
        ensures Remains(live) == Everything() && BytesOf(Remains(live)) == pmm.small_in_use_bytes + pmm.large_in_use_bytes
      {
        EverythingRemains(live);
      }
    }

    /** When nothing can be reclaimed any more, everything remains. */
    lemma EverythingRemains(live: set<nat>)
      requires Valid() && Smalls().Keys <= live && Larges().Keys <= live
      requires forall p :: 0 <= p < |small_alloc.page_mapped| && small_alloc.page_mapped[p]
                           ==> !InFreeBlock(small_alloc.free_by_addr, small_alloc.va_base, p)
      ensures Remains(live) == Everything() && BytesOf(Remains(live)) == pmm.small_in_use_bytes + pmm.large_in_use_bytes
    {
      assert OpenDevice(Seal);
      EmptyCacheLeavesNeeded(small_alloc.Ranges(), live, small_alloc.page_mapped);
      assert Staying(KeptOf(small_alloc.tiles), small_alloc.allocated_, live) == KeptOf(small_alloc.tiles);
      SmallAtMostInUse(live);
      AllReserved(Large(), large_alloc.allocs, live);
    }

    /** Release cached blocks worth size bytes, or all there are, but less than 256 MB too much; no
        allocation notices. */
    method Purge(size: nat) returns (released: nat)
      requires Valid()
      modifies pmm, drv`s, drv`used
      ensures Valid() && Everything() == old(Everything())
      ensures forall live: set<nat> {:trigger Remains(live)} :: Remains(live) == old(Remains(live))
      ensures InUse() == old(InUse()) <= drv.used == old(drv.used) - released
      ensures pmm.Purges() == (old(pmm.purge_count) + (if released > 0 then 1 else 0), old(pmm.total_purged_bytes) + released)
      ensures released >= size || drv.used == InUse()
      ensures released > 0 ==> released < size + 16 * UNIT
      ensures drv.capacity - drv.used <= pmm.SmallRoom() <= drv.capacity - InUse()
    {
      assert OpenDevice(Seal);
      ghost var d, v := drv.s, pmm.View();
      drv.UsedIsLive();
      released := pmm.Purge(size);
      CachedReleased(d, v.place, v.place.Keys - pmm.place.Keys, small_alloc.va_base);
      SmallUntouched(old(Small()), v.small_in_use_bytes);
      LargeUntouched(old(Large()), v.large_in_use_bytes);
      drv.UsedIsLive();
      PurgeLeaves(d, v, drv.s, pmm.View(), size, released);
    }

    lemma UsedFits()
      requires Valid()
      ensures drv.used <= drv.capacity
    {
      assert OpenDevice(Seal);
      drv.UsedIsLive();
    }

    /** Bytes in use by pages and allocations. */
    ghost function InUse(): int
      reads pmm`small_in_use_bytes, pmm`large_in_use_bytes
    {
      pmm.small_in_use_bytes + pmm.large_in_use_bytes
    }

    /** Release every cached block; no allocation notices. Only bytes in use are left. */
    method Trim()
      requires Valid()
      modifies pmm, drv`s, drv`used
      ensures Valid() && pmm.Purges() == old(pmm.Purges())
      ensures drv.used == pmm.small_in_use_bytes + pmm.large_in_use_bytes && Everything() == old(Everything())
      ensures pmm.small_in_use_bytes == old(pmm.small_in_use_bytes) && pmm.large_in_use_bytes == old(pmm.large_in_use_bytes)
      ensures forall live: set<nat> {:trigger Remains(live)} :: Remains(live) == old(Remains(live))
    {
      assert OpenDevice(Seal);
      ghost var d, v := drv.s, pmm.View();
      pmm.Trim();
      CachedReleased(d, v.place, CachedHandles(v.place), small_alloc.va_base);
      drv.UsedIsLive();
      SmallUntouched(old(Small()), v.small_in_use_bytes);
      LargeUntouched(old(Large()), v.large_in_use_bytes);
    }

    /** enablePeerAccess with this device as the target. */
    method AddPeerDevice(peer: int)
      requires Valid()
      modifies small_alloc, large_alloc, drv`s
      ensures Valid() && Smalls() == old(Smalls()) && Larges() == old(Larges())
      ensures small_alloc.MayUse() == old(small_alloc.MayUse()) + {peer}
      ensures forall x :: x in small_alloc.peer_devices <==> x in old(small_alloc.peer_devices) || x == peer
      ensures forall x :: x in large_alloc.peer_devices <==> x in old(large_alloc.peer_devices) || x == peer
    {
      assert OpenDevice(Seal);
      ghost var v := pmm.View();
      small_alloc.AddPeerDevice(peer);
      LargeUntouched(old(Large()), v.large_in_use_bytes);
      var ok := large_alloc.AddPeerDevice(peer);
      SmallUntouched(Small(), v.small_in_use_bytes);
      PeerJoins(small_alloc.device, old(small_alloc.peer_devices), peer, small_alloc.peer_devices);
      PeerJoins(large_alloc.device, old(large_alloc.peer_devices), peer, large_alloc.peer_devices);
    }

    /** The reserved-bytes part of getDeviceStats: small, large and aggregate. */
    method ReservedBytes() returns (small: int, large: int, all: int)
      requires Valid()
      ensures small == PAGE * Count(small_alloc.page_mapped) + pmm.small_cached_bytes
      ensures large == Sum(Large().reserved) + pmm.large_cached_bytes
      ensures all == small + large == drv.used
    {
      assert OpenDevice(Seal);
      var small_mapped, small_cached := small_alloc.mapped_bytes, pmm.small_cached_bytes;
      var large_in_use, large_cached := large_alloc.allocated_bytes, pmm.large_cached_bytes;
      small, large := small_mapped + small_cached, large_in_use + large_cached;
      all := small + large;
      InUseIsMapped(Small(), pmm.small_in_use_bytes, small_alloc.PageTable());
      HeldIsLive(drv.s, pmm.View());
      drv.UsedIsLive();
    }

    // ---- ownership ----------------------------------------------------------------------------------

    /** The bytes of a live allocation. */
    ghost predicate Owned(p: nat, x: nat)
      reads small_alloc, large_alloc
    {
      || (p in small_alloc.allocated_ && p <= x < p + small_alloc.allocated_[p])
      || (p in large_alloc.allocs && p <= x < p + large_alloc.allocs[p].va_size)
    }

    /** Every byte of a live allocation is backed by memory. */
    lemma OwnedIsMapped(p: nat, x: nat)
      requires Valid() && Owned(p, x)
      ensures D.IsMapped(drv.s.maps, x)
    {
      assert OpenDevice(Seal);
      if p in small_alloc.allocated_ && p <= x < p + small_alloc.allocated_[p] {
        LiveTile(small_alloc.Ranges(), p);
        RangeIsMapped(Small(), pmm.small_in_use_bytes, small_alloc.PageTable(), small_alloc.allocated_, p, x);
        var v :| D.Holds(Small().maps, v, x);
        assert D.Holds(drv.s.maps, v, x);
      } else {
        L.RecordOf(Large(), large_alloc.allocs, p);
        B.RecordCovered(Large(), p, large_alloc.allocs[p]);
        assert D.IsMapped(Large().maps, x);
        var v :| D.Holds(Large().maps, v, x);
        assert D.Holds(drv.s.maps, v, x);
      }
    }

    /** No byte belongs to two live allocations. */
    lemma OwnedOnce(p: nat, q: nat, x: nat)
      requires Valid() && Owned(p, x) && Owned(q, x)
      ensures p == q
    {
      assert OpenDevice(Seal);
      if p in small_alloc.allocated_ && q in small_alloc.allocated_ {
        SmallRangesApart(small_alloc.Ranges(), p, q);
      }
      SmallInside(p, x);
      SmallInside(q, x);
      LargeInside(p, x);
      LargeInside(q, x);
      S.SmallBaseReserved(small_alloc);
      OneReservation(drv.s, p, q, small_alloc.va_base, x);
    }

    lemma SmallInside(p: nat, x: nat)
      requires Valid()
      ensures p in small_alloc.allocated_ && p <= x < p + small_alloc.allocated_[p]
              ==> small_alloc.va_base <= x < small_alloc.va_base + small_alloc.va_size
    {
      assert OpenDevice(Seal);
      if p in small_alloc.allocated_ {
        LiveTile(small_alloc.Ranges(), p);
      }
    }

    lemma LargeInside(p: nat, x: nat)
      requires Valid()
      ensures p in large_alloc.allocs ==> p in drv.s.reserved && drv.s.reserved[p] == large_alloc.allocs[p].va_size && p != small_alloc.va_base
    {
      assert OpenDevice(Seal);
      if p in large_alloc.allocs {
        L.RecordOf(Large(), large_alloc.allocs, p);
      }
    }

    /** Distinct live allocations never share a byte of physical memory. */
    lemma NoAliasing(p: nat, q: nat, x: nat, y: nat, h: nat, off: nat, k: nat, off': nat)
      requires Valid() && p != q && Owned(p, x) && Owned(q, y)
      requires D.Translates(drv.s.maps, x, h, off) && D.Translates(drv.s.maps, y, k, off')
      ensures (h, off) != (k, off')
    {
      assert OpenDevice(Seal);
      if x == y {
        OwnedOnce(p, q, x);
      }
      SaneIsOk(drv.s);
      D.TranslationInjective(drv.s, x, h, off, y, k, off');
    }

    /** Handle h is found at location l. */
    ghost predicate BlockAt(h: nat, l: O.Location)
      reads pmm, small_alloc, large_alloc
    {
      && |small_alloc.page_mapped| == |small_alloc.page_blocks|
      && O.SitsAt(pmm.View(), small_alloc.PageTable(), large_alloc.allocs, h, l)
    }

    /** Every live block of the device is in exactly one place: the small free list, the bucket of
        its own size, a mapped page, or a slot of a large allocation. Cached blocks are unmapped. */
    lemma EveryBlockInOnePlace(h: nat)
      requires Valid() && h in drv.s.live
      ensures exists l :: BlockAt(h, l)
      ensures forall l, m :: BlockAt(h, l) && BlockAt(h, m) ==> l == m
      ensures forall l :: BlockAt(h, l) && (l.SmallFree? || l.Bucket?) ==> h !in drv.s.mappedAt
      ensures forall l :: BlockAt(h, l) && l.Bucket? ==> drv.s.live[h] == l.class_
    {
      assert OpenDevice(Seal);
      O.ExactlyOneLocation(drv.s, pmm.View(), small_alloc.va_base, small_alloc.PageTable(), large_alloc.allocs, h);
      var l :| O.SitsAt(pmm.View(), small_alloc.PageTable(), large_alloc.allocs, h, l);
      assert BlockAt(h, l);
    }

    /** Every mapping of the device, small or large, grants access to the device and its registered
        peers, and to no others; both sub-allocators have registered the same. */
    lemma AccessIsUniform()
      requires Valid()
      ensures small_alloc.device == large_alloc.device
      ensures forall x :: x == large_alloc.device || x in large_alloc.peer_devices <==> x == small_alloc.device || x in small_alloc.peer_devices
      ensures forall v <- drv.s.maps :: v in drv.s.access
                && forall x :: x in drv.s.access[v] <==> x == small_alloc.device || x in small_alloc.peer_devices
    {
      assert OpenDevice(Seal);
      PeersAgree();
      small_alloc.AccessByDevice();
      large_alloc.AccessByDevice();
      forall v | v in drv.s.maps
        ensures v in drv.s.access && forall x :: x in drv.s.access[v] <==> x == small_alloc.device || x in small_alloc.peer_devices
      {
        if drv.s.maps[v].region == small_alloc.va_base {
          assert v in Small().maps && Small().access[v] == drv.s.access[v];
        } else {
          assert v in Large().maps && Large().access[v] == drv.s.access[v];
        }
      }
    }

    lemma PeersAgree()
      requires small_alloc.MayUse() == large_alloc.MayUse()
      ensures forall x :: x == large_alloc.device || x in large_alloc.peer_devices <==> x == small_alloc.device || x in small_alloc.peer_devices
    {
      forall x
        ensures x == large_alloc.device || x in large_alloc.peer_devices <==> x in small_alloc.MayUse()
      {
        assert x in large_alloc.MayUse() <==> x == large_alloc.device || x in large_alloc.peer_devices;
      }
    }

  }
}

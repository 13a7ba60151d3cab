/** VMMAllocator on one device, run by one thread at a time: routing, metadata, deferred frees, the
    pool index and recovery from out-of-memory (csrc/vmm_allocator.cc). */
module VmmAllocator {
  import opened Common
  import opened Sums
  import opened Ledger
  import opened PerDevice
  import opened Layout
  import opened Pools
  import opened Supply
  import opened Room

  datatype Outcome = Pointer(ptr: nat) | NullPointer | Disabled | OutOfMemory

  datatype ActivePoolEntry = ActivePoolEntry(id: PoolId, filter: Option<int -> bool>)

  lemma PtrsGrow(ready: seq<PendingFree>, i: nat)
    requires i < |ready|
    ensures Ptrs(ready[..i + 1]) == Ptrs(ready[..i]) + {ready[i].ptr}
    ensures BlocksOfAll(ready[..i + 1]) == BlocksOfAll(ready[..i]) + BlocksOf(ready[i].meta)
  {
    assert ready[..i + 1] == ready[..i] + [ready[i]];
  }

  lemma LateSize(meta: Metas, late: Metas, smalls: map<nat, nat>, larges: map<nat, nat>, p: nat)
    requires Owners(meta, late, smalls, larges).Sound? && p in late && late[p].is_large
    ensures p in larges && larges[p] == late[p].size
  {
    assert OpenOwners(Seal);
  }

  lemma MinusMore<V>(m: map<nat, V>, s: set<nat>, x: nat)
    ensures m - s - {x} == m - (s + {x})
  {
  }

  lemma FirstEntry(pending: seq<PendingFree>, ready: seq<PendingFree>)
    requires ready != []
    ensures ready[0] in multiset(pending) + multiset(ready)
    ensures multiset(pending) + multiset(ready) - multiset{ready[0]} == multiset(pending) + multiset(ready[1..])
  {
    assert ready == [ready[0]] + ready[1..];
  }

  /** The sub-allocators hold what the records say, and the allocation at ptr besides. */
  ghost predicate HeldBy(ptr: Option<nat>, size: nat, is_large: bool, meta: Metas, late: Metas,
                         smalls: map<nat, nat>, larges: map<nat, nat>)
  {
    match ptr
    case None => Owners(meta, late, smalls, larges).Sound?
    case Some(p) =>
      p > 0 && if is_large
      then p in larges && larges[p] == size && p !in smalls && Owners(meta, late, smalls, larges - {p}).Sound?
      else p in smalls && smalls[p] == AlignedSize(size) && p !in larges && Owners(meta, late, smalls - {p}, larges).Sound?
  }

  lemma NewIsHeld(meta: Metas, late: Metas, smalls: map<nat, nat>, larges: map<nat, nat>, p: nat, size: nat, is_large: bool)
    requires Owners(meta, late, smalls, larges).Sound? && p > 0 && p !in smalls && p !in larges
    ensures p !in meta && p !in late
    ensures is_large ==> HeldBy(Some(p), size, is_large, meta, late, smalls, larges[p := size])
    ensures !is_large ==> HeldBy(Some(p), size, is_large, meta, late, smalls[p := AlignedSize(size)], larges)
  {
    assert larges[p := size] - {p} == larges;
    assert smalls[p := AlignedSize(size)] - {p} == smalls;
    NotLive(meta, late, smalls, larges, p);
  }

  lemma HeldIsNew(p: nat, m: AllocMeta, meta: Metas, late: Metas, smalls: map<nat, nat>, larges: map<nat, nat>)
    requires HeldBy(Some(p), m.size, m.is_large, meta, late, smalls, larges) && m.size > 0
    ensures p !in meta && p !in late && Owners(meta[p := m], late, smalls, larges).Sound?
  {
    if m.is_large {
      OwnersAddLarge(meta, late, smalls, larges - {p}, p, m);
      assert (larges - {p})[p := m.size] == larges;
    } else {
      OwnersAddSmall(meta, late, smalls - {p}, larges, p, m);
      assert (smalls - {p})[p := AlignedSize(m.size)] == smalls;
    }
  }

  lemma NotLive(meta: Metas, late: Metas, smalls: map<nat, nat>, larges: map<nat, nat>, p: nat)
    requires Owners(meta, late, smalls, larges).Sound? && p !in smalls && p !in larges
    ensures p !in meta && p !in late
  {
    assert OpenOwners(Seal);
  }

  // ---- picking entries off a list -------------------------------------------------------------------

  /** The entries with the property, in their order. */
  ghost function Chosen(entries: seq<PendingFree>, f: PendingFree -> bool): seq<PendingFree> {
    if entries == [] then []
    else
      var e := entries[|entries| - 1];
      Chosen(entries[..|entries| - 1], f) + if f(e) then [e] else []
  }

  /** The other entries, in their order. */
  ghost function Others(entries: seq<PendingFree>, f: PendingFree -> bool): seq<PendingFree> {
    if entries == [] then []
    else
      var e := entries[|entries| - 1];
      Others(entries[..|entries| - 1], f) + if f(e) then [] else [e]
  }

  lemma {:induction false} ChosenSplit(entries: seq<PendingFree>, f: PendingFree -> bool)
    ensures multiset(Others(entries, f)) + multiset(Chosen(entries, f)) == multiset(entries)
    ensures forall e <- Others(entries, f) :: !f(e)
    ensures forall e <- Chosen(entries, f) :: f(e)
  {
    if entries != [] {
      ChosenSplit(entries[..|entries| - 1], f);
      assert entries == entries[..|entries| - 1] + [entries[|entries| - 1]];
    }
  }

  lemma {:induction false} NoneChosen(entries: seq<PendingFree>, f: PendingFree -> bool)
    requires forall e <- entries :: !f(e)
    ensures Chosen(entries, f) == [] && Others(entries, f) == entries
  {
    if entries != [] {
      NoneChosen(entries[..|entries| - 1], f);
    }
  }

  lemma {:induction false} ChosenHolds(entries: seq<PendingFree>, f: PendingFree -> bool, e: PendingFree)
    ensures e in Chosen(entries, f) <==> e in entries && f(e)
    ensures e in Others(entries, f) <==> e in entries && !f(e)
  {
    if entries != [] {
      ChosenHolds(entries[..|entries| - 1], f, e);
      assert entries == entries[..|entries| - 1] + [entries[|entries| - 1]];
    }
  }

  function InPool(id: PoolId): PendingFree -> bool {
    (e: PendingFree) => e.meta.pool_id == id
  }

  /** The blocks that go back to the buckets when the entry is freed. */
  ghost function BlocksOf(m: AllocMeta): seq<nat> {
    if m.is_large then Pack(m.size) else []
  }

  ghost function BlocksOfAll(entries: seq<PendingFree>): seq<nat> {
    if entries == [] then [] else BlocksOfAll(entries[..|entries| - 1]) + BlocksOf(entries[|entries| - 1].meta)
  }

  /** The entries left on the list and those taken off are different pointers. */
  lemma ChosenApart(entries: seq<PendingFree>, f: PendingFree -> bool, late: Metas)
    requires Lists(multiset(entries), late).Sound?
    ensures Ptrs(Others(entries, f)) !! Ptrs(Chosen(entries, f)) && Ptrs(Chosen(entries, f)) <= late.Keys
  {
    assert OpenLists(Seal);
    forall a, b | a in Others(entries, f) && b in Chosen(entries, f)
      ensures a.ptr != b.ptr && b.ptr in late
    {
      ChosenHolds(entries, f, a);
      ChosenHolds(entries, f, b);
      assert a in multiset(entries) && b in multiset(entries);
      assert a.ptr == b.ptr ==> a.meta == b.meta;
    }
    forall b | b in Chosen(entries, f)
      ensures b.ptr in late
    {
      ChosenHolds(entries, f, b);
      assert b in multiset(entries);
    }
  }

  /** Everything the sub-allocators hold is live or pending. */
  lemma AllRecorded(meta: Metas, late: Metas, smalls: map<nat, nat>, larges: map<nat, nat>, pending: seq<PendingFree>)
    requires Owners(meta, late, smalls, larges).Sound? && Lists(multiset(pending), late).Sound?
    ensures smalls.Keys <= meta.Keys + Ptrs(pending) && larges.Keys <= meta.Keys + Ptrs(pending)
    ensures meta.Keys !! late.Keys
  {
    assert OpenOwners(Seal) && OpenLists(Seal);
    forall p | p in late
      ensures p in Ptrs(pending)
    {
      assert PendingFree(p, late[p]) in multiset(pending);
      assert PendingFree(p, late[p]) in pending;
    }
  }

  // ---- the entries of one pool ----------------------------------------------------------------------

  /** Without an index entry, no allocation carries the id. */
  lemma NothingInPool(meta: Metas, late: Metas, index: PoolIndex, pending: seq<PendingFree>, id: PoolId)
    requires Indexed(meta, late, index).Sound? && Lists(multiset(pending), late).Sound? && id !in index
    ensures id != NO_POOL ==> Tagged(meta, id) == {} && Chosen(pending, InPool(id)) == []
  {
    assert OpenIndex(Seal) && OpenLists(Seal);
    if id != NO_POOL {
      forall p | p in meta
        ensures meta[p].pool_id != id
      {
        assert HasEntry(index, meta[p].pool_id);
      }
      forall e | e in pending
        ensures e.meta.pool_id != id
      {
        assert e in multiset(pending);
        assert HasEntry(index, late[e.ptr].pool_id);
      }
      NoneChosen(pending, InPool(id));
    }
  }

  lemma LateOutside(late: Metas, pending: seq<PendingFree>, id: PoolId)
    requires Lists(multiset(pending), late).Sound? && forall e <- pending :: e.meta.pool_id != id
    ensures forall p <- late :: late[p].pool_id != id
  {
    assert OpenLists(Seal);
    forall p | p in late
      ensures late[p].pool_id != id
    {
      assert PendingFree(p, late[p]) in multiset(pending);
    }
  }

  /** The records once every allocation of a pool is freed. */
  lemma PoolGone(meta0: Metas, late0: Metas, index0: PoolIndex, pending0: seq<PendingFree>, id: PoolId,
                 meta: Metas, late: Metas, gone: set<nat>)
    requires Indexed(meta0, late0, index0).Sound? && id in index0 && meta == meta0 - Tagged(meta0, id)
    requires late == late0 + OnlyAt(meta0, Tagged(meta0, id)) - gone
    requires Lists(multiset(Others(pending0, InPool(id))), late).Sound?
    ensures Indexed(meta, late, index0 - {id}).Sound? && Tagged(meta, id) == {}
    ensures Chosen(Others(pending0, InPool(id)), InPool(id)) == []
  {
    ChosenSplit(pending0, InPool(id));
    NoneChosen(Others(pending0, InPool(id)), InPool(id));
    LateOutside(late, Others(pending0, InPool(id)), id);
    IndexReleased(meta0, late0, index0, id, meta, late);
  }

  /** What releasePool takes off the pending list are the late allocations of the pool. */
  lemma ChosenIsTagged(late: Metas, pending: seq<PendingFree>, id: PoolId)
    requires Lists(multiset(pending), late).Sound?
    ensures Ptrs(Chosen(pending, InPool(id))) == Tagged(late, id)
  {
    assert OpenLists(Seal);
    forall p
      ensures p in Ptrs(Chosen(pending, InPool(id))) <==> p in Tagged(late, id)
    {
      if p in late {
        ChosenHolds(pending, InPool(id), PendingFree(p, late[p]));
        assert PendingFree(p, late[p]) in multiset(pending);
      }
      if p in Ptrs(Chosen(pending, InPool(id))) {
        var f :| f in Chosen(pending, InPool(id)) && f.ptr == p;
        ChosenHolds(pending, InPool(id), f);
        assert f in multiset(pending);
      }
    }
  }

  lemma PoolLateGone(meta0: Metas, late0: Metas, smalls: map<nat, nat>, larges: map<nat, nat>, tagged: set<nat>, taken: set<nat>)
    requires Owners(meta0, late0, smalls, larges).Sound? && tagged <= meta0.Keys
    ensures late0 + OnlyAt(meta0, tagged) - (tagged + taken) == late0 - taken
  {
    assert OpenOwners(Seal);
  }

  lemma DetachMore(meta0: Metas, late0: Metas, done: set<nat>, p: nat)
    requires p in meta0 && p !in done
    ensures meta0 - done - {p} == meta0 - (done + {p})
    ensures (late0 + OnlyAt(meta0, done))[p := meta0[p]] == late0 + OnlyAt(meta0, done + {p})
  {
  }

  lemma EntriesOfBoth(before: seq<PendingFree>, live: seq<PendingFree>, after: seq<PendingFree>, taken: seq<PendingFree>)
    requires multiset(after) + multiset(taken) == multiset(before)
    ensures multiset(before) + multiset(live) == multiset(after) + multiset(live + taken)
  {
    assert multiset(live + taken) == multiset(live) + multiset(taken);
  }

  // ---- the stack of active pools ---------------------------------------------------------------------

  /** The stack without its most recent entry for the pool, if it has one. */
  ghost function RemoveLast(stack: seq<ActivePoolEntry>, id: PoolId): seq<ActivePoolEntry> {
    if stack == [] then []
    else
      var n := |stack| - 1;
      if stack[n].id == id then stack[..n] else RemoveLast(stack[..n], id) + [stack[n]]
  }

  /** Entry i is removed when it is for the pool and none above it is. */
  lemma {:induction false} LastOfPool(stack: seq<ActivePoolEntry>, id: PoolId, i: nat)
    requires i <= |stack| && forall j :: i < j < |stack| ==> stack[j].id != id
    ensures i < |stack| && stack[i].id == id ==> RemoveLast(stack, id) == stack[..i] + stack[i + 1..]
    ensures (forall e <- stack :: e.id != id) ==> RemoveLast(stack, id) == stack
    decreases |stack|
  {
    if stack != [] {
      var n := |stack| - 1;
      if i < n {
        LastOfPool(stack[..n], id, i);
        assert stack[..n][i + 1..] + [stack[n]] == stack[i + 1..];
      } else if stack[n].id != id {
        LastOfPool(stack[..n], id, n);
      }
    }
  }

  /** Ending a pool undoes its begin, whatever other pools have been begun in between. */
  lemma EndUndoesBegin(stack: seq<ActivePoolEntry>, entry: ActivePoolEntry, nested: seq<ActivePoolEntry>)
    requires forall e <- nested :: e.id != entry.id
    ensures RemoveLast(stack + [entry] + nested, entry.id) == stack + nested
  {
    var all, n := stack + [entry] + nested, |stack|;
    assert all[n] == entry && all[n + 1..] == nested && all[..n] == stack;
    LastOfPool(all, entry.id, n);
  }

  /** How a request went that the first attempt did not serve: what stayed before the second attempt,
      the room that one had for small blocks, the bytes purged for it, and what stayed before the
      third. */
  datatype Trail = Trail(mid: Residue, room: int, released: nat, left: Residue)

  /** What a request starts from: what stays once everything is reclaimed; what stands at the first
      attempt, with the room for small blocks; whether no deferred free is done by then, and whether a
      small request fits as things are; the bytes handed out, the buckets, and the blocks that go into
      them before the first attempt. */
  datatype Start = Start(before: Residue, first: Residue, room: int, idle: bool, fits: bool,
                         used: int, large: Buckets, added: seq<nat>)

  ghost predicate OpenCourse(s: Seal) {
    true
  }

  ghost predicate OpenCounts(s: Seal) {
    true
  }

  class VMMAllocator {
    const ds: PerDeviceState

    var enabled: bool
    var threshold: nat
    var meta_: Metas
    var pending_frees: seq<PendingFree>
    var pool_allocs: PoolIndex

    var active_pools: seq<ActivePoolEntry>

    /** Allocations taken off meta_ that the sub-allocators still hold. */
    ghost var late: Metas

    constructor (ds: PerDeviceState)
      requires ds.Valid() && ds.Smalls() == map[] && ds.Larges() == map[]
      requires ds.small_stats != ds.large_stats && ds.small_stats.Tally(0, 0) && ds.large_stats.Tally(0, 0)
      ensures Valid() && this.ds == ds && enabled && threshold == UNIT && meta_ == map[] && pending_frees == []
      ensures pool_allocs == map[] && active_pools == []
    {
      this.ds := ds;
      enabled, threshold := true, UNIT;
      meta_, pending_frees, pool_allocs, late := map[], [], map[], map[];
      active_pools := [];
      NothingHeld(false);
      NothingHeld(true);
    }

    /** The records agree with the sub-allocators and the statistics. */
    ghost predicate Books()
      reads this`meta_, this`late, ds.small_stats, ds.large_stats, ds.pmm, ds.drv, ds.small_alloc, ds.large_alloc
    {
      && ds.Valid()
      && Owners(meta_, late, ds.Smalls(), ds.Larges()).Sound?
      && Counts(meta_, late).Sound?
    }

    /** current_bytes of each side is the sum of its live and late sizes. */
    ghost predicate CountsOk(live: Metas, late: Metas)
      reads ds.small_stats, ds.large_stats
    {
      && ds.small_stats != ds.large_stats
      && ds.small_stats.Tally(HeldBytes(live, late, false), HeldCount(live, late, false))
      && ds.large_stats.Tally(HeldBytes(live, late, true), HeldCount(live, late, true))
    }

    ghost function Counts(live: Metas, late: Metas): Verdict
      reads ds.small_stats, ds.large_stats
    {
      if forall s {:trigger OpenCounts(s)} :: OpenCounts(s) ==> CountsOk(live, late) then Sound else Broken
    }

    ghost predicate Valid()
      reads this`meta_, this`late, this`pending_frees, this`pool_allocs, ds.small_stats, ds.large_stats, ds.pmm, ds.drv, ds.small_alloc, ds.large_alloc
    {
      Books() && Indexed(meta_, late, pool_allocs).Sound? && Lists(multiset(pending_frees), late).Sound?
    }

    /** current_bytes of each side is the sum of its live and pending sizes, and never negative. */
    lemma CurrentBytes()
      requires Valid()
      ensures 0 <= ds.small_stats.current_bytes == HeldBytes(meta_, late, false)
      ensures 0 <= ds.large_stats.current_bytes == HeldBytes(meta_, late, true)
      ensures forall p <- late :: PendingFree(p, late[p]) in pending_frees
      ensures forall e <- pending_frees :: e.ptr in late && late[e.ptr] == e.meta
    {
      assert OpenCounts(Seal) && OpenLists(Seal);
      forall p | p in late
        ensures PendingFree(p, late[p]) in pending_frees
      {
        assert PendingFree(p, late[p]) in multiset(pending_frees);
      }
      forall e | e in pending_frees
        ensures e.ptr in late && late[e.ptr] == e.meta
      {
        assert e in multiset(pending_frees);
      }
    }

    /** What stays when every pending free is completed and everything is reclaimed. */
    ghost function Remains(): Residue
      reads this`meta_, ds.small_stats, ds.large_stats, ds.pmm, ds.drv, ds.small_alloc, ds.large_alloc
    {
      ds.Remains(meta_.Keys)
    }

    /** The bytes the driver cannot get back while every live allocation stays. */
    ghost function Unreclaimable(): nat
      reads this`meta_, ds.small_stats, ds.large_stats, ds.pmm, ds.drv, ds.small_alloc, ds.large_alloc
    {
      ds.Unreclaimable(meta_.Keys)
    }

    /** The statistics that frees leave alone. */
    ghost function Made(): ((int, int, int), (int, int, int))
      reads ds.small_stats, ds.large_stats
    {
      (ds.small_stats.Made(), ds.large_stats.Made())
    }

    /** Give an allocation back to the sub-allocator it came from. */
    method DoFree(ptr: nat, m: AllocMeta)
      requires Books() && ptr in late && late[ptr] == m
      modifies this`late, ds.small_stats, ds.large_stats, ds.small_alloc, ds.large_alloc, ds.pmm, ds.drv`s
      ensures Books() && late == old(late) - {ptr} && Remains() == old(Remains()) && Made() == old(Made())
      ensures ds.Smalls() == old(ds.Smalls()) - {ptr} && ds.Larges() == old(ds.Larges()) - {ptr}
      ensures forall live: set<nat> {:trigger ds.Standing(live)} :: ptr !in live ==> ds.Standing(live) == old(ds.Standing(live))
      ensures ds.Unspent() == old(ds.Unspent()) && Added(old(ds.pmm.large_free), BlocksOf(m), ds.pmm.large_free)
    {
      ghost var rest := late - {ptr};
      CountFree(ptr, m);
      HandBack(ptr, m);
      late := rest;
    }

    /** The sub-allocator's part of doFree. */
    method HandBack(ptr: nat, m: AllocMeta)
      requires ds.Valid() && Owners(meta_, late, ds.Smalls(), ds.Larges()).Sound? && ptr in late && late[ptr] == m
      modifies ds.small_alloc, ds.large_alloc, ds.pmm, ds.drv`s
      ensures ds.Valid() && Owners(meta_, late - {ptr}, ds.Smalls(), ds.Larges()).Sound? && Remains() == old(Remains())
      ensures ds.Smalls() == old(ds.Smalls()) - {ptr} && ds.Larges() == old(ds.Larges()) - {ptr}
      ensures forall live: set<nat> {:trigger ds.Standing(live)} :: ptr !in live ==> ds.Standing(live) == old(ds.Standing(live))
      ensures ds.Unspent() == old(ds.Unspent()) && Added(old(ds.pmm.large_free), BlocksOf(m), ds.pmm.large_free)
    {
      ghost var smalls, larges := ds.Smalls(), ds.Larges();
      if m.is_large {
        LateSize(meta_, late, smalls, larges, ptr);
      }
      OwnersDrop(meta_, late, smalls, larges, ptr, m.is_large, if m.is_large then smalls else smalls - {ptr},
                 if m.is_large then larges - {ptr} else larges);
      var ok := ds.Free(ptr, m.is_large);
      assert ok;
    }

    method CountFree(ptr: nat, m: AllocMeta)
      requires Counts(meta_, late).Sound? && ptr in late && late[ptr] == m
      modifies ds.small_stats, ds.large_stats
      ensures Counts(meta_, late - {ptr}).Sound? && Made() == old(Made())
    {
      HeldDrop(meta_, late, ptr, false);
      HeldDrop(meta_, late, ptr, true);
      ghost var rest := late - {ptr};
      ghost var bytes, count := HeldBytes(meta_, late, m.is_large), HeldCount(meta_, late, m.is_large);
      assert OpenCounts(Seal);
      if m.is_large {
        ds.large_stats.RecordFree(m.size, bytes, count);
      } else {
        ds.small_stats.RecordFree(m.size, bytes, count);
      }
      assert CountsOk(meta_, rest);
    }

    /** The books and the list agree, while the entries in ready have left pending_frees to be freed. */
    ghost predicate Settling(ready: seq<PendingFree>)
      reads this`meta_, this`late, this`pending_frees, ds.small_stats, ds.large_stats, ds.pmm, ds.drv, ds.small_alloc, ds.large_alloc
    {
      Books() && Lists(multiset(pending_frees) + multiset(ready), late).Sound?
    }

    /** Free everything in ready. */
    method FreeAll(ready: seq<PendingFree>)
      requires Settling(ready)
      modifies this`late, ds.small_stats, ds.large_stats, ds.small_alloc, ds.large_alloc, ds.pmm, ds.drv`s
      ensures Books() && Lists(multiset(pending_frees), late).Sound?
      ensures late == old(late) - Ptrs(ready) && Remains() == old(Remains()) && Made() == old(Made())
      ensures ds.Smalls() == old(ds.Smalls()) - Ptrs(ready) && ds.Larges() == old(ds.Larges()) - Ptrs(ready)
      ensures forall live: set<nat> {:trigger ds.Standing(live)} :: live !! Ptrs(ready) ==> ds.Standing(live) == old(ds.Standing(live))
      ensures ds.Unspent() == old(ds.Unspent()) && Added(old(ds.pmm.large_free), BlocksOfAll(ready), ds.pmm.large_free)
    {
      ghost var late0, smalls, larges, left, large0 := late, ds.Smalls(), ds.Larges(), Remains(), ds.pmm.large_free;
      assert ready[0..] == ready && Ptrs(ready[..0]) == {} && BlocksOfAll(ready[..0]) == [];
      for i := 0 to |ready|
        invariant Settling(ready[i..]) && Remains() == left && Made() == old(Made())
        invariant late == late0 - Ptrs(ready[..i]) && ds.Smalls() == smalls - Ptrs(ready[..i]) && ds.Larges() == larges - Ptrs(ready[..i])
        invariant forall live: set<nat> {:trigger ds.Standing(live)} ::
                    live !! Ptrs(ready[..i]) ==> ds.Standing(live) == old(ds.Standing(live))
        invariant ds.Unspent() == old(ds.Unspent()) && Added(large0, BlocksOfAll(ready[..i]), ds.pmm.large_free)
      {
        ghost var rest, large := ready[i + 1..], ds.pmm.large_free;
        PtrsGrow(ready, i);
        assert ready[i..][1..] == rest;
        FreeNext(ready[i..], ready[i], rest);
        MinusMore(late0, Ptrs(ready[..i]), ready[i].ptr);
        MinusMore(smalls, Ptrs(ready[..i]), ready[i].ptr);
        MinusMore(larges, Ptrs(ready[..i]), ready[i].ptr);
        AddMore(large0, BlocksOfAll(ready[..i]), large, BlocksOf(ready[i].meta), ds.pmm.large_free);
      }
      assert ready[..|ready|] == ready && ready[|ready|..] == [];
      assert multiset(pending_frees) + multiset(ready[|ready|..]) == multiset(pending_frees);
    }

    method FreeNext(ghost ready: seq<PendingFree>, pf: PendingFree, ghost rest: seq<PendingFree>)
      requires Settling(ready) && ready != [] && pf == ready[0] && rest == ready[1..]
      modifies this`late, ds.small_stats, ds.large_stats, ds.small_alloc, ds.large_alloc, ds.pmm, ds.drv`s
      ensures Settling(rest) && late == old(late) - {pf.ptr} && Remains() == old(Remains()) && Made() == old(Made())
      ensures ds.Smalls() == old(ds.Smalls()) - {pf.ptr} && ds.Larges() == old(ds.Larges()) - {pf.ptr}
      ensures forall live: set<nat> {:trigger ds.Standing(live)} :: pf.ptr !in live ==> ds.Standing(live) == old(ds.Standing(live))
      ensures ds.Unspent() == old(ds.Unspent()) && Added(old(ds.pmm.large_free), BlocksOf(pf.meta), ds.pmm.large_free)
    {
      ghost var entries := multiset(pending_frees) + multiset(ready);
      FirstEntry(pending_frees, ready);
      ListsFind(entries, late, pf);
      ListsDrop(entries, late, pf);
      DoFree(pf.ptr, pf.meta);
    }

    /** Free the pending entries whose events have all completed, as done tells; the others stay. */
    method ProcessPendingFrees(done: PendingFree -> bool)
      requires Valid()
      modifies this`late, this`pending_frees, ds.small_stats, ds.large_stats, ds.small_alloc, ds.large_alloc, ds.pmm, ds.drv`s
      ensures Valid() && Remains() == old(Remains()) && Made() == old(Made())
      ensures pending_frees == Others(old(pending_frees), done) && late == old(late) - Ptrs(Chosen(old(pending_frees), done))
      ensures var gone := Ptrs(Chosen(old(pending_frees), done));
              && ds.Smalls() == old(ds.Smalls()) - gone && ds.Larges() == old(ds.Larges()) - gone
              && forall live: set<nat> {:trigger ds.Standing(live)} :: live !! gone ==> ds.Standing(live) == old(ds.Standing(live))
      ensures ds.Unspent() == old(ds.Unspent())
      ensures Added(old(ds.pmm.large_free), BlocksOfAll(Chosen(old(pending_frees), done)), ds.pmm.large_free)
    {
      var ready := Extract(done);
      IndexShrink(meta_, late, pool_allocs, Ptrs(ready));
      FreeAll(ready);
    }

    /** Move the entries with the property out of the pending list. */
    method Extract(chosen: PendingFree -> bool) returns (taken: seq<PendingFree>)
      modifies this`pending_frees
      ensures pending_frees == Others(old(pending_frees), chosen) && taken == Chosen(old(pending_frees), chosen)
      ensures multiset(pending_frees) + multiset(taken) == multiset(old(pending_frees))
    {
      taken := [];
      ghost var all := pending_frees;
      ghost var seen := 0;
      var it := 0;
      while it < |pending_frees|
        invariant it <= |pending_frees| && seen <= |all| && pending_frees[it..] == all[seen..]
        invariant pending_frees[..it] == Others(all[..seen], chosen) && taken == Chosen(all[..seen], chosen)
        decreases |pending_frees| - it
      {
        ghost var was := pending_frees;
        ghost var next := all[..seen + 1];
        assert next[..seen] == all[..seen] && next[seen] == all[seen];
        assert was[it] == was[it..][0] == all[seen..][0] == all[seen];
        assert was[it + 1..] == was[it..][1..] == all[seen..][1..] == all[seen + 1..];
        if chosen(pending_frees[it]) {
          taken := taken + [pending_frees[it]];
          pending_frees := pending_frees[..it] + pending_frees[it + 1..];
          assert pending_frees[..it] == was[..it] && pending_frees[it..] == was[it + 1..];
        } else {
          it := it + 1;
          assert pending_frees[..it] == was[..it - 1] + [all[seen]];
        }
        seen := seen + 1;
      }
      assert all[..seen] == all && pending_frees[..it] == pending_frees;
      ChosenSplit(all, chosen);
    }

    /** Free every pending entry, once its events have been waited for. */
    method ForceProcessPendingFrees()
      requires Valid()
      modifies this`late, this`pending_frees, ds.small_stats, ds.large_stats, ds.small_alloc, ds.large_alloc, ds.pmm, ds.drv`s
      ensures Valid() && Remains() == old(Remains()) && Made() == old(Made())
      ensures late == map[] && pending_frees == [] && ds.Unspent() == old(ds.Unspent())
      ensures var gone := Ptrs(old(pending_frees));
              ds.Smalls() == old(ds.Smalls()) - gone && ds.Larges() == old(ds.Larges()) - gone
    {
      var to_free := pending_frees;
      pending_frees := [];
      assert multiset(pending_frees) + multiset(to_free) == multiset(to_free);
      IndexShrink(meta_, late, pool_allocs, Ptrs(to_free));
      FreeAll(to_free);
      ListsEmpty(late);
    }

    // ---- freeing ---------------------------------------------------------------------------------

    /** Take a live allocation off the records; the sub-allocator still holds it. */
    method Detach(ptr: nat) returns (m: AllocMeta)
      requires Valid() && ptr in meta_
      modifies this`meta_, this`pool_allocs, this`late
      ensures m == old(meta_)[ptr] && Settling([PendingFree(ptr, m)]) && Indexed(meta_, late, pool_allocs).Sound?
      ensures meta_ == old(meta_) - {ptr} && late == old(late)[ptr := m] && ptr !in old(late)
      ensures pool_allocs == Delist(old(pool_allocs), m.pool_id, ptr)
    {
      m := meta_[ptr];
      ghost var e := PendingFree(ptr, m);
      OwnersDefer(meta_, late, ds.Smalls(), ds.Larges(), ptr);
      CountDefer(ptr);
      IndexDefer(meta_, late, pool_allocs, ptr);
      ListsAdd(multiset(pending_frees), late, e);
      late := late[ptr := m];
      meta_ := meta_ - {ptr};
      pool_allocs := Delist(pool_allocs, m.pool_id, ptr);
      assert multiset([e]) == multiset{e};
    }

    lemma CountDefer(ptr: nat)
      requires Counts(meta_, late).Sound? && ptr in meta_ && ptr !in late
      ensures Counts(meta_ - {ptr}, late[ptr := meta_[ptr]]).Sound?
    {
      HeldDefer(meta_, late, ptr, false);
      HeldDefer(meta_, late, ptr, true);
      assert OpenCounts(Seal);
    }

    /** Free an allocation, or put it on the pending list if other streams may still use it. */
    method FreeImpl(ptr: nat)
      requires Valid()
      modifies this`meta_, this`pool_allocs, this`late, this`pending_frees
      modifies ds.small_stats, ds.large_stats, ds.small_alloc, ds.large_alloc, ds.pmm, ds.drv`s
      ensures Valid() && Made() == old(Made()) && ds.Unspent() == old(ds.Unspent())
      ensures ptr !in old(meta_) ==> meta_ == old(meta_) && pool_allocs == old(pool_allocs) && pending_frees == old(pending_frees)
                                     && ds.Smalls() == old(ds.Smalls()) && ds.Larges() == old(ds.Larges())
      ensures ptr in old(meta_) ==> var m := old(meta_)[ptr];
                && meta_ == old(meta_) - {ptr} && pool_allocs == Delist(old(pool_allocs), m.pool_id, ptr)
                && pending_frees == (if m.recorded_streams == [] then old(pending_frees) else old(pending_frees) + [PendingFree(ptr, m)])
                && ds.Smalls() == (if m.recorded_streams == [] then old(ds.Smalls()) - {ptr} else old(ds.Smalls()))
                && ds.Larges() == (if m.recorded_streams == [] then old(ds.Larges()) - {ptr} else old(ds.Larges()))
                && FreeEffect(old(meta_), old(pool_allocs), old(late), ptr, meta_, pool_allocs, late)
    {
      if ptr == 0 || ptr !in meta_ {
        NullIsNotLive();
        return;
      }
      var m := Detach(ptr);
      FreeOrDefer(PendingFree(ptr, m));
      assert m.recorded_streams == [] ==> late == old(late);
    }

    /** Hand back an allocation that is off the records, or defer it. */
    method FreeOrDefer(e: PendingFree)
      requires Settling([e]) && Indexed(meta_, late, pool_allocs).Sound?
      modifies this`late, this`pending_frees, ds.small_stats, ds.large_stats, ds.small_alloc, ds.large_alloc, ds.pmm, ds.drv`s
      ensures Valid() && Made() == old(Made()) && ds.Unspent() == old(ds.Unspent())
      ensures e.meta.recorded_streams == [] ==>
                && pending_frees == old(pending_frees) && late == old(late) - {e.ptr}
                && ds.Smalls() == old(ds.Smalls()) - {e.ptr} && ds.Larges() == old(ds.Larges()) - {e.ptr}
      ensures e.meta.recorded_streams != [] ==>
                && pending_frees == old(pending_frees) + [e] && late == old(late)
                && ds.Smalls() == old(ds.Smalls()) && ds.Larges() == old(ds.Larges())
    {
      if e.meta.recorded_streams != [] {
        pending_frees := pending_frees + [e];
      } else {
        ghost var none: seq<PendingFree> := [];
        IndexShrink(meta_, late, pool_allocs, {e.ptr});
        FreeNext([e], e, none);
        assert multiset(pending_frees) + multiset(none) == multiset(pending_frees);
      }
    }

    lemma NullIsNotLive()
      requires Valid()
      ensures 0 !in meta_
    {
      assert OpenOwners(Seal);
    }

    /** Remember that a live allocation is used on another stream, once per stream. */
    method RecordStream(ptr: nat, stream: int)
      requires Valid()
      modifies this`meta_
      ensures Valid()
      ensures ptr !in old(meta_) ==> meta_ == old(meta_)
      ensures ptr in old(meta_) ==> var m := old(meta_)[ptr];
                meta_ == old(meta_)[ptr := m.(recorded_streams := if stream in m.recorded_streams then m.recorded_streams
                                                                  else m.recorded_streams + [stream])]
    {
      if ptr == 0 || ptr !in meta_ {
        NullIsNotLive();
        return;
      }
      var m := meta_[ptr];
      for i := 0 to |m.recorded_streams|
        invariant stream !in m.recorded_streams[..i]
      {
        if m.recorded_streams[i] == stream {
          assert meta_ == meta_[ptr := m];
          return;
        }
      }
      var m' := m.(recorded_streams := m.recorded_streams + [stream]);
      OwnersRetag(meta_, late, ds.Smalls(), ds.Larges(), ptr, m');
      CountRetag(ptr, m');
      IndexRetag(meta_, late, pool_allocs, ptr, m');
      meta_ := meta_[ptr := m'];
    }

    lemma CountRetag(ptr: nat, m: AllocMeta)
      requires Counts(meta_, late).Sound? && ptr in meta_ && m.size == meta_[ptr].size && m.is_large == meta_[ptr].is_large
      ensures Counts(meta_[ptr := m], late).Sound?
    {
      HeldRetag(meta_, late, ptr, m, false);
      HeldRetag(meta_, late, ptr, m, true);
      assert OpenCounts(Seal);
    }

    // ---- allocating --------------------------------------------------------------------------------

    /** Consistent, except that an allocation just made is not yet on the records. */
    ghost predicate Holding(ptr: Option<nat>, size: nat, is_large: bool)
      reads this`meta_, this`late, this`pending_frees, this`pool_allocs, ds.small_stats, ds.large_stats, ds.pmm, ds.drv, ds.small_alloc, ds.large_alloc
    {
      && ds.Valid() && Counts(meta_, late).Sound? && Indexed(meta_, late, pool_allocs).Sound?
      && Lists(multiset(pending_frees), late).Sound?
      && HeldBy(ptr, size, is_large, meta_, late, ds.Smalls(), ds.Larges())
    }

    /** One attempt, without recording its result. */
    method TryOnce(size: nat, is_large: bool) returns (ptr: Option<nat>)
      requires Valid() && size > 0
      modifies ds.small_alloc, ds.large_alloc, ds.pmm, ds.drv`s, ds.drv`used, ds.drv`next, ds.drv`top
      ensures Holding(ptr, size, is_large) && ds.pmm.Purges() == old(ds.pmm.Purges())
      ensures is_large ==> Remains() == old(Remains())
      ensures is_large && ptr.Some? ==> ds.LargeFitsBeside(Remains(), size)
      ensures is_large && ptr.None? && !ds.drv.refuses && !ds.drv.faults ==> !old(ds.RoomFor(size))
      ensures is_large && !ds.drv.refuses && !ds.drv.faults ==> (ptr.Some? <==> old(ds.LargeFits(size)))
      ensures !is_large && !ds.drv.refuses ==> (ptr.Some? <==> old(ds.SmallFits(size)))
      ensures !is_large && ptr.None? ==> Abandons(old(Remains()), Remains(), size)
    {
      ghost var smalls, larges := ds.Smalls(), ds.Larges();
      ptr := ds.Attempt(size, is_large);
      if ptr.Some? {
        NewIsHeld(meta_, late, smalls, larges, ptr.value, size, is_large);
      }
    }

    /** A failed small attempt leaves at most one range behind. */
    ghost predicate Abandons(before: Residue, after: Residue, size: nat) {
      AfterFailure(before, after, ds.small_alloc.va_base, AlignedSize(size))
    }

    /** Process all pending frees and flush the sub-allocators' caches. */
    method Flush()
      requires Valid()
      modifies this`late, this`pending_frees, ds.small_stats, ds.large_stats, ds.small_alloc, ds.large_alloc, ds.pmm, ds.drv`s
      ensures Valid() && late == map[] && pending_frees == [] && Remains() == old(Remains()) && Made() == old(Made())
      ensures Remains() == ds.Everything() && Unreclaimable() == ds.InUse() && ds.pmm.Purges() == old(ds.pmm.Purges())
    {
      ForceProcessPendingFrees();
      OwnersSettled(meta_, ds.Smalls(), ds.Larges());
      ds.EmptyCache();
    }

    /** Flush, and release everything cached: what is left cannot be reclaimed. */
    method ReclaimAll()
      requires Valid()
      modifies this`late, this`pending_frees, ds.small_stats, ds.large_stats, ds.small_alloc, ds.large_alloc, ds.pmm
      modifies ds.drv`s, ds.drv`used
      ensures Valid() && late == map[] && pending_frees == [] && Remains() == old(Remains()) == ds.Everything()
      ensures ds.drv.used == Unreclaimable() == ds.InUse() && Made() == old(Made()) && ds.pmm.Purges() == old(ds.pmm.Purges())
    {
      Flush();
      ds.Trim();
    }

    /** What a small request finds at the first attempt: everything but the deferred frees that are done. */
    ghost function AtFirst(done: PendingFree -> bool): Residue
      reads this`meta_, this`pending_frees, ds.pmm, ds.drv, ds.small_alloc, ds.large_alloc
    {
      ds.Standing(meta_.Keys + Ptrs(Others(pending_frees, done)))
    }

    // ---- which attempt serves a request ---------------------------------------------------------------

    /** The first attempt serves a small request exactly if it fits within what stands then, which is
        what is there now if no deferred free is done. It serves a large one exactly if the capacity
        covers the blocks that the buckets lack, with the blocks of completed frees in them. */
    ghost predicate FirstOk(size: nat, is_large: bool, q: Start, served: bool) {
      && (!is_large && !ds.drv.refuses ==>
            && (served <==> ds.SmallFitsIn(q.first, q.room, size))
            && (q.idle ==> (served <==> q.fits)))
      && (is_large && !ds.drv.refuses && !ds.drv.faults ==>
            && (q.used + RoundUp(size, UNIT) <= ds.drv.capacity ==> served)
            && forall large {:trigger Added(q.large, q.added, large)} ::
                 Added(q.large, q.added, large) ==> (served <==> q.used + Shortfall(Pack(size), large) <= ds.drv.capacity))
      && (is_large && served ==> ds.LargeFitsBeside(q.before, size))
    }

    ghost function First(size: nat, is_large: bool, q: Start, served: bool): Verdict {
      if forall s {:trigger OpenCourse(s)} :: OpenCourse(s) ==> FirstOk(size, is_large, q, served) then Sound else Broken
    }

    /** The later attempts serve a small request exactly if it fits what stays before each, the second
        within the room that the purge has left. They serve a large one exactly if the capacity covers it
        beside what stays, a multiple of 16 MB with the second. */
    ghost predicate LaterOk(size: nat, is_large: bool, served: bool, attempts: nat, t: Trail) {
      && (!is_large && !ds.drv.refuses ==>
            && (attempts == 2 <==> ds.SmallFitsIn(t.mid, t.room, size))
            && (attempts == 3 ==> Abandons(t.mid, t.left, size))
            && (!served <==> attempts == 3 && !ds.SmallFitsBeside(t.left, size)))
      && (is_large && !ds.drv.refuses && !ds.drv.faults ==>
            && (served <==> ds.LargeFitsBeside(t.mid, size))
            && (served && size % UNIT == 0 ==> attempts == 2))
      && (is_large && served ==> ds.LargeFitsBeside(t.mid, size))
    }

    ghost function Later(size: nat, is_large: bool, served: bool, attempts: nat, t: Trail): Verdict {
      if forall s {:trigger OpenCourse(s)} :: OpenCourse(s) ==> LaterOk(size, is_large, served, attempts, t) then Sound else Broken
    }

    /** All attempts: the first one, and if it fails the later ones, which find what it has left behind. */
    ghost predicate CourseOk(size: nat, is_large: bool, q: Start, served: bool, attempts: nat, t: Trail) {
      && 1 <= attempts <= 3 && (!served ==> attempts == 3)
      && FirstOk(size, is_large, q, attempts == 1)
      && (attempts > 1 ==>
            && LaterOk(size, is_large, served, attempts, t)
            && (if is_large then t.mid == q.before else Abandons(q.before, t.mid, size)))
    }

    ghost function Course(size: nat, is_large: bool, q: Start, served: bool, attempts: nat, t: Trail): Verdict {
      if forall s {:trigger OpenCourse(s)} :: OpenCourse(s) ==> CourseOk(size, is_large, q, served, attempts, t) then Sound else Broken
    }

    lemma TriedFirst(size: nat, is_large: bool, q: Start, served: bool, large: Buckets)
      requires !is_large && !ds.drv.refuses ==> (served <==> ds.SmallFitsIn(q.first, q.room, size))
      requires q.idle ==> (q.fits <==> ds.SmallFitsIn(q.first, q.room, size))
      requires Added(q.large, q.added, large)
      requires is_large && !ds.drv.refuses && !ds.drv.faults ==> (served <==> q.used + Shortfall(Pack(size), large) <= ds.drv.capacity)
      requires is_large && !ds.drv.refuses && !ds.drv.faults && !served ==> q.used + RoundUp(size, UNIT) > ds.drv.capacity
      requires is_large && served ==> ds.LargeFitsBeside(q.before, size)
      ensures First(size, is_large, q, served).Sound?
    {
      AnySupply(q.large, q.added, large, Pack(size));
    }

    lemma ServedFirst(size: nat, is_large: bool, q: Start, t: Trail)
      requires First(size, is_large, q, true).Sound?
      ensures Course(size, is_large, q, true, 1, t).Sound?
    {
      assert OpenCourse(Seal);
    }

    lemma ServedLater(size: nat, is_large: bool, q: Start, served: bool, attempts: nat, t: Trail)
      requires First(size, is_large, q, false).Sound? && Later(size, is_large, served, attempts, t).Sound?
      requires 2 <= attempts <= 3 && (!served ==> attempts == 3)
      requires if is_large then t.mid == q.before else Abandons(q.before, t.mid, size)
      ensures Course(size, is_large, q, served, attempts, t).Sound?
    {
      assert OpenCourse(Seal);
    }

    /** A large request is served at once exactly if the device has room for the blocks that the buckets
        lack, when no deferred free is done, and whenever it has room for all of them. It is refused
        exactly when it does not fit beside what stays. */
    lemma LargeServed(size: nat, q: Start, served: bool, attempts: nat, t: Trail)
      requires Course(size, true, q, served, attempts, t).Sound? && (q.idle ==> q.added == [])
      ensures !ds.drv.refuses && !ds.drv.faults && q.idle
              ==> (served && attempts == 1 <==> q.used + Shortfall(Pack(size), q.large) <= ds.drv.capacity)
      ensures !ds.drv.refuses && !ds.drv.faults && q.used + RoundUp(size, UNIT) <= ds.drv.capacity ==> served && attempts == 1
      ensures served ==> ds.LargeFitsBeside(q.before, size)
      ensures !ds.drv.refuses && !ds.drv.faults ==> (served <==> ds.LargeFitsBeside(q.before, size))
    {
      assert OpenCourse(Seal);
      assert Added(q.large, [], q.large);
    }

    /** A small request is served at once exactly if it fits, when no deferred free is done; it is
        refused exactly when it does not fit beside what stays before the third attempt. */
    lemma SmallServed(size: nat, q: Start, served: bool, attempts: nat, t: Trail)
      requires Course(size, false, q, served, attempts, t).Sound?
      ensures !ds.drv.refuses && q.idle ==> (served && attempts == 1 <==> q.fits)
      ensures !ds.drv.refuses ==> (!served <==> attempts == 3 && !ds.SmallFitsBeside(t.left, size))
      ensures !ds.drv.refuses && attempts == 3 ==> Abandons(q.before, t.mid, size) && Abandons(t.mid, t.left, size)
    {
      assert OpenCourse(Seal);
    }

    // ---- the attempts -----------------------------------------------------------------------------------

    /** Everything the sub-allocators hold stands when the live and the pending allocations do. */
    lemma NothingElse(live: set<nat>, size: nat)
      requires Valid() && live == meta_.Keys + Ptrs(pending_frees)
      ensures ds.SmallFits(size) <==> ds.SmallFitsIn(ds.Standing(live), ds.pmm.SmallRoom(), size)
    {
      AllRecorded(meta_, late, ds.Smalls(), ds.Larges(), pending_frees);
      ds.AllStands(live);
      ds.SmallFitsHere(ds.Everything(), size);
    }

    /** With no deferred free done, the first attempt finds things as they are. */
    lemma NothingDone(size: nat, done: PendingFree -> bool, q: Start)
      requires Valid() && q == StartOf(size, done)
      ensures q.idle ==> (q.fits <==> ds.SmallFitsIn(q.first, q.room, size))
    {
      if Chosen(pending_frees, done) == [] {
        forall e | e in pending_frees
          ensures !done(e)
        {
          ChosenHolds(pending_frees, done, e);
        }
        NoneChosen(pending_frees, done);
        NothingElse(meta_.Keys + Ptrs(pending_frees), size);
      }
    }

    /** Free what is ready; what else is live or pending stands as before. */
    method Complete(done: PendingFree -> bool, ghost live: set<nat>)
      requires Valid() && live == meta_.Keys + Ptrs(Others(pending_frees, done))
      modifies this`late, this`pending_frees, ds.small_stats, ds.large_stats, ds.small_alloc, ds.large_alloc, ds.pmm, ds.drv`s
      ensures Valid() && Remains() == old(Remains()) && Made() == old(Made()) && ds.Unspent() == old(ds.Unspent())
      ensures pending_frees == Others(old(pending_frees), done) && late == old(late) - Ptrs(Chosen(old(pending_frees), done))
      ensures ds.Standing(live) == old(ds.Standing(live))
      ensures Added(old(ds.pmm.large_free), BlocksOfAll(Chosen(old(pending_frees), done)), ds.pmm.large_free)
    {
      ChosenApart(pending_frees, done, late);
      LiveApart();
      ProcessPendingFrees(done);
    }

    /** What the first attempt then finds is known beforehand. */
    method Prepare(size: nat, done: PendingFree -> bool, ghost q: Start)
      requires Valid() && q == StartOf(size, done)
      modifies this`late, this`pending_frees, ds.small_stats, ds.large_stats, ds.small_alloc, ds.large_alloc, ds.pmm, ds.drv`s
      ensures Valid() && Remains() == q.before && Made() == old(Made())
      ensures pending_frees == Others(old(pending_frees), done) && late == old(late) - Ptrs(Chosen(old(pending_frees), done))
      ensures ds.drv.used == q.used && ds.pmm.Purges() == old(ds.pmm.Purges()) && Added(q.large, q.added, ds.pmm.large_free)
      ensures ds.SmallFits(size) <==> ds.SmallFitsIn(q.first, q.room, size)
      ensures q.idle ==> (q.fits <==> ds.SmallFits(size))
    {
      ghost var live := meta_.Keys + Ptrs(Others(pending_frees, done));
      NothingDone(size, done, q);
      Complete(done, live);
      NothingElse(live, size);
    }

    lemma LiveApart()
      requires Valid()
      ensures meta_.Keys !! late.Keys
    {
      AllRecorded(meta_, late, ds.Smalls(), ds.Larges(), pending_frees);
    }

    /** Level 0: free what is ready, then try. */
    method FirstAttempt(size: nat, is_large: bool, done: PendingFree -> bool, ghost q: Start) returns (ptr: Option<nat>)
      requires Valid() && size > 0 && q == StartOf(size, done)
      modifies this`late, this`pending_frees, ds.small_stats, ds.large_stats, ds.small_alloc, ds.large_alloc, ds.pmm
      modifies ds.drv`s, ds.drv`used, ds.drv`next, ds.drv`top
      ensures Holding(ptr, size, is_large) && Made() == old(Made()) && ds.pmm.Purges() == old(ds.pmm.Purges())
      ensures pending_frees == Others(old(pending_frees), done) && late == old(late) - Ptrs(Chosen(old(pending_frees), done))
      ensures First(size, is_large, q, ptr.Some?).Sound?
      ensures ptr.None? ==> if is_large then Remains() == q.before else Abandons(q.before, Remains(), size)
    {
      Prepare(size, done, q);
      ghost var large := ds.pmm.large_free;
      ptr := TryOnce(size, is_large);
      TriedFirst(size, is_large, q, ptr.Some?, large);
    }

    /** The two retries, and the count of failures. */
    method Recover(size: nat, is_large: bool) returns (ptr: Option<nat>, ghost attempts: nat, ghost trail: Trail)
      requires Valid() && size > 0
      modifies this`late, this`pending_frees, ds, ds.small_stats, ds.large_stats, ds.small_alloc, ds.large_alloc, ds.pmm
      modifies ds.drv`s, ds.drv`used, ds.drv`next, ds.drv`top
      ensures Holding(ptr, size, is_large) && late == map[] && pending_frees == [] && Made() == old(Made())
      ensures 2 <= attempts <= 3 && (ptr.None? ==> attempts == 3)
      ensures ds.num_alloc_retries == old(ds.num_alloc_retries) + attempts - 1
      ensures ds.num_ooms == old(ds.num_ooms) + if ptr.None? then 1 else 0
      ensures trail.mid == old(Remains())
      ensures PurgedFor(size, old(ds.pmm.Purges()), ds.pmm.Purges(), trail.mid, trail.room, trail.released)
      ensures Later(size, is_large, ptr.Some?, attempts, trail).Sound?
      ensures ptr.None? ==> if is_large then Remains() == trail.mid else Abandons(trail.left, Remains(), size)
    {
      ghost var mid, room, released := Remains(), 0, 0;
      ptr, room, released := RetryAfterPurge(size, is_large);
      attempts, trail := 2, Trail(mid, room, released, Remains());
      if ptr.None? {
        ptr := LastAttempt(size, is_large, trail);
        attempts := 3;
      }
    }

    method LastAttempt(size: nat, is_large: bool, ghost t: Trail) returns (ptr: Option<nat>)
      requires Valid() && size > 0 && t.left == Remains()
      requires if is_large then Remains() == t.mid else Abandons(t.mid, t.left, size)
      requires !is_large && !ds.drv.refuses ==> !ds.SmallFitsIn(t.mid, t.room, size)
      requires is_large && size % UNIT == 0 && !ds.drv.refuses && !ds.drv.faults ==> !ds.LargeFitsBeside(t.mid, size)
      modifies this`late, this`pending_frees, ds
      modifies ds.small_stats, ds.large_stats, ds.small_alloc, ds.large_alloc, ds.pmm
      modifies ds.drv`s, ds.drv`used, ds.drv`next, ds.drv`top
      ensures Holding(ptr, size, is_large) && late == map[] && pending_frees == [] && Made() == old(Made())
      ensures ds.num_alloc_retries == old(ds.num_alloc_retries) + 1 && ds.pmm.Purges() == old(ds.pmm.Purges())
      ensures ds.num_ooms == old(ds.num_ooms) + if ptr.None? then 1 else 0
      ensures Later(size, is_large, ptr.Some?, 3, t).Sound?
      ensures ptr.None? ==> if is_large then Remains() == t.mid else Abandons(t.left, Remains(), size)
    {
      ptr := RetryAfterTrim(size, is_large);
      if ptr.None? {
        ds.num_ooms := ds.num_ooms + 1;
      }
    }

    /** What is purged for the second attempt, when mid is what stays: enough for the request or all that
        is cached, and less than 256 MB too much. The room is what small blocks then have. */
    ghost predicate PurgedFor(size: nat, before: (nat, nat), after: (nat, nat), mid: Residue, room: int, released: nat) {
      && after == (before.0 + (if released > 0 then 1 else 0), before.1 + released)
      && (released > 0 ==> released < size + 16 * UNIT)
      && room <= ds.drv.capacity - BytesOf(mid)
      && (room >= size || room == ds.drv.capacity - BytesOf(mid))
    }

    /** What a request starts from: done tells which deferred frees have completed. */
    ghost function StartOf(size: nat, done: PendingFree -> bool): Start
      reads this`meta_, this`pending_frees, ds.small_stats, ds.large_stats, ds.pmm, ds.pmm.drv`used, ds.drv, ds.small_alloc, ds.large_alloc
    {
      Start(Remains(), AtFirst(done), ds.pmm.SmallRoom(), Chosen(pending_frees, done) == [], ds.SmallFits(size),
            ds.drv.used, ds.pmm.large_free, BlocksOfAll(Chosen(pending_frees, done)))
    }

    /** The three attempts: as things are; after flushing and purging; after flushing and trimming. The
        deferred frees that are done are completed first, the others only if that was not enough. */
    method AllocWithRetry(size: nat, is_large: bool, done: PendingFree -> bool)
        returns (ptr: Option<nat>, ghost attempts: nat, ghost trail: Trail)
      requires Valid() && size > 0
      modifies this`late, this`pending_frees, ds, ds.small_stats, ds.large_stats, ds.small_alloc, ds.large_alloc, ds.pmm
      modifies ds.drv`s, ds.drv`used, ds.drv`next, ds.drv`top
      ensures Holding(ptr, size, is_large) && Made() == old(Made())
      ensures pending_frees == (if attempts > 1 then [] else Others(old(pending_frees), done))
      ensures late == if attempts > 1 then map[] else old(late) - Ptrs(Chosen(old(pending_frees), done))
      ensures 1 <= attempts <= 3 && (ptr.None? ==> attempts == 3)
      ensures ds.num_alloc_retries == old(ds.num_alloc_retries) + attempts - 1
      ensures ds.num_ooms == old(ds.num_ooms) + if ptr.None? then 1 else 0
      ensures if attempts == 1 then ds.pmm.Purges() == old(ds.pmm.Purges())
              else PurgedFor(size, old(ds.pmm.Purges()), ds.pmm.Purges(), trail.mid, trail.room, trail.released)
      ensures Course(size, is_large, old(StartOf(size, done)), ptr.Some?, attempts, trail).Sound?
      ensures ptr.None? ==> if is_large then Remains() == old(Remains()) else Abandons(trail.left, Remains(), size)
    {
      ghost var q := StartOf(size, done);
      ptr := FirstAttempt(size, is_large, done, q);
      attempts, trail := 1, Trail(Remains(), 0, 0, Remains());
      if ptr.None? {
        ptr, attempts, trail := Recover(size, is_large);
        ServedLater(size, is_large, q, ptr.Some?, attempts, trail);
      } else {
        ServedFirst(size, is_large, q, trail);
      }
    }

    /** Flush, and purge what the request needs. */
    method ReclaimSome(size: nat) returns (ghost room: int, ghost released: nat)
      requires Valid()
      modifies this`late, this`pending_frees, ds.small_stats, ds.large_stats, ds.small_alloc, ds.large_alloc, ds.pmm
      modifies ds.drv`s, ds.drv`used
      ensures Valid() && late == map[] && pending_frees == [] && Remains() == old(Remains()) && Made() == old(Made())
      ensures PurgedFor(size, old(ds.pmm.Purges()), ds.pmm.Purges(), old(Remains()), room, released)
      ensures ds.drv.used == old(ds.drv.used) - released
      ensures size % UNIT == 0 && !ds.RoomFor(size) ==> ds.drv.used == Unreclaimable()
      ensures ds.SmallFits(size) <==> ds.SmallFitsIn(Remains(), room, size)
    {
      ds.UsedFits();
      RoundUpUnits(size);
      Flush();
      room, released := PurgeSome(size);
    }

    method PurgeSome(size: nat) returns (ghost room: int, ghost released: nat)
      requires Valid() && Remains() == ds.Everything() && Unreclaimable() == ds.InUse()
      modifies ds.pmm, ds.drv`s, ds.drv`used
      ensures Valid() && Remains() == old(Remains())
      ensures PurgedFor(size, old(ds.pmm.Purges()), ds.pmm.Purges(), Remains(), room, released)
      ensures ds.drv.used == old(ds.drv.used) - released
      ensures released >= size || ds.drv.used == Unreclaimable()
      ensures ds.SmallFits(size) <==> ds.SmallFitsIn(Remains(), room, size)
    {
      ds.UsedFits();
      var freed := ds.Purge(size);
      released, room := freed, ds.pmm.SmallRoom();
      ds.SmallFitsHere(Remains(), size);
    }

    /** Level 1: reclaim deferred frees and free pages, and purge what the request needs. */
    method RetryAfterPurge(size: nat, is_large: bool) returns (ptr: Option<nat>, ghost room: int, ghost released: nat)
      requires Valid() && size > 0
      modifies this`late, this`pending_frees, ds`num_alloc_retries
      modifies ds.small_stats, ds.large_stats, ds.small_alloc, ds.large_alloc, ds.pmm
      modifies ds.drv`s, ds.drv`used, ds.drv`next, ds.drv`top
      ensures Holding(ptr, size, is_large) && late == map[] && pending_frees == [] && Made() == old(Made())
      ensures ds.num_alloc_retries == old(ds.num_alloc_retries) + 1
      ensures PurgedFor(size, old(ds.pmm.Purges()), ds.pmm.Purges(), old(Remains()), room, released)
      ensures !is_large && !ds.drv.refuses ==> (ptr.Some? <==> ds.SmallFitsIn(old(Remains()), room, size))
      ensures !is_large && ptr.None? ==> Abandons(old(Remains()), Remains(), size)
      ensures is_large ==> Remains() == old(Remains())
      ensures is_large && ptr.Some? ==> ds.LargeFitsBeside(Remains(), size)
      ensures is_large && ptr.None? && !ds.drv.refuses && !ds.drv.faults && size % UNIT == 0
              ==> !ds.LargeFitsBeside(Remains(), size)
    {
      ds.num_alloc_retries := ds.num_alloc_retries + 1;
      room, released := ReclaimSome(size);
      ptr := TryOnce(size, is_large);
    }

    /** Level 2: reclaim again and release everything cached. What is in use then cannot be reclaimed. */
    method RetryAfterTrim(size: nat, is_large: bool) returns (ptr: Option<nat>)
      requires Valid() && size > 0
      modifies this`late, this`pending_frees, ds`num_alloc_retries
      modifies ds.small_stats, ds.large_stats, ds.small_alloc, ds.large_alloc, ds.pmm
      modifies ds.drv`s, ds.drv`used, ds.drv`next, ds.drv`top
      ensures Holding(ptr, size, is_large) && late == map[] && pending_frees == [] && Made() == old(Made())
      ensures ds.num_alloc_retries == old(ds.num_alloc_retries) + 1 && ds.pmm.Purges() == old(ds.pmm.Purges())
      ensures is_large ==> Remains() == old(Remains())
      ensures is_large && ptr.Some? ==> ds.LargeFitsBeside(Remains(), size)
      ensures is_large && ptr.None? && !ds.drv.refuses && !ds.drv.faults ==> !ds.LargeFitsBeside(Remains(), size)
      ensures !is_large && !ds.drv.refuses ==> (ptr.Some? <==> ds.SmallFitsBeside(old(Remains()), size))
      ensures !is_large && ptr.None? ==> Abandons(old(Remains()), Remains(), size)
    {
      ds.num_alloc_retries := ds.num_alloc_retries + 1;
      ReclaimFor(size);
      ptr := TryOnce(size, is_large);
    }

    /** ReclaimAll, and what it means for the request. */
    method ReclaimFor(size: nat)
      requires Valid()
      modifies this`late, this`pending_frees, ds.small_stats, ds.large_stats, ds.small_alloc, ds.large_alloc, ds.pmm
      modifies ds.drv`s, ds.drv`used
      ensures Valid() && late == map[] && pending_frees == [] && Remains() == old(Remains())
      ensures Made() == old(Made()) && ds.pmm.Purges() == old(ds.pmm.Purges())
      ensures ds.SmallFits(size) <==> ds.SmallFitsBeside(Remains(), size)
      ensures ds.RoomFor(size) <==> ds.LargeFitsBeside(Remains(), size)
    {
      ReclaimAll();
      ds.RoomReclaimed();
      ds.SmallFitsHere(Remains(), size);
    }

    /** The statistics and the metadata of a finished allocation. */
    method Record(p: nat, m: AllocMeta)
      requires Holding(Some(p), m.size, m.is_large) && m.size > 0
      modifies this`meta_, this`pool_allocs, ds.small_stats, ds.large_stats
      ensures Valid() && p !in old(meta_) && p !in late && meta_ == old(meta_)[p := m]
      ensures pool_allocs == Enlist(old(pool_allocs), m.pool_id, p)
      ensures Counted(old(Made()), m.size, m.is_large)
    {
      HeldIsNew(p, m, meta_, late, ds.Smalls(), ds.Larges());
      CountAlloc(p, m);
      Enter(p, m);
    }

    /** The metadata of an allocation that has been counted. */
    method Enter(p: nat, m: AllocMeta)
      requires ds.Valid() && Counts(meta_[p := m], late).Sound? && Owners(meta_[p := m], late, ds.Smalls(), ds.Larges()).Sound?
      requires Indexed(meta_, late, pool_allocs).Sound? && Lists(multiset(pending_frees), late).Sound? && p !in meta_
      modifies this`meta_, this`pool_allocs
      ensures Valid() && meta_ == old(meta_)[p := m] && pool_allocs == Enlist(old(pool_allocs), m.pool_id, p)
    {
      IndexAdd(meta_, late, pool_allocs, p, m);
      meta_ := meta_[p := m];
      if m.pool_id != NO_POOL {
        pool_allocs := pool_allocs[m.pool_id := (if m.pool_id in pool_allocs then pool_allocs[m.pool_id] else {}) + {p}];
      }
    }

    /** One more allocation has been counted on its side, and nothing on the other. */
    ghost predicate Counted(before: ((int, int, int), (int, int, int)), size: nat, is_large: bool)
      reads ds.small_stats, ds.large_stats
    {
      if is_large then ds.large_stats.Gained(before.1, size) && ds.small_stats.Made() == before.0
      else ds.small_stats.Gained(before.0, size) && ds.large_stats.Made() == before.1
    }

    method CountAlloc(p: nat, m: AllocMeta)
      requires Counts(meta_, late).Sound? && p !in meta_
      modifies ds.small_stats, ds.large_stats
      ensures Counts(meta_[p := m], late).Sound? && Counted(old(Made()), m.size, m.is_large)
    {
      HeldAdd(meta_, late, p, m, false);
      HeldAdd(meta_, late, p, m, true);
      ghost var live := meta_[p := m];
      ghost var bytes, count := HeldBytes(meta_, late, m.is_large), HeldCount(meta_, late, m.is_large);
      assert OpenCounts(Seal);
      if m.is_large {
        ds.large_stats.RecordAlloc(m.size, bytes, count);
      } else {
        ds.small_stats.RecordAlloc(m.size, bytes, count);
      }
      assert CountsOk(live, late);
    }

    /** Retry, then record. */
    method Serve(m: AllocMeta, done: PendingFree -> bool) returns (r: Outcome, ghost attempts: nat, ghost trail: Trail)
      requires Valid() && m.size > 0
      modifies this`meta_, this`pool_allocs, this`late, this`pending_frees
      modifies ds, ds.small_stats, ds.large_stats, ds.small_alloc, ds.large_alloc, ds.pmm
      modifies ds.drv`s, ds.drv`used, ds.drv`next, ds.drv`top
      ensures Valid() && (r.Pointer? || r.OutOfMemory?)
      ensures 1 <= attempts <= 3 && (r.OutOfMemory? ==> attempts == 3)
      ensures pending_frees == if attempts > 1 then [] else Others(old(pending_frees), done)
      ensures ds.num_alloc_retries == old(ds.num_alloc_retries) + attempts - 1
      ensures ds.num_ooms == old(ds.num_ooms) + if r.OutOfMemory? then 1 else 0
      ensures if attempts == 1 then ds.pmm.Purges() == old(ds.pmm.Purges())
              else PurgedFor(m.size, old(ds.pmm.Purges()), ds.pmm.Purges(), trail.mid, trail.room, trail.released)
      ensures Course(m.size, m.is_large, old(StartOf(m.size, done)), r.Pointer?, attempts, trail).Sound?
      ensures !m.is_large && !ds.drv.refuses && Chosen(old(pending_frees), done) == []
              ==> (r.Pointer? && attempts == 1 <==> old(ds.SmallFits(m.size)))
      ensures !m.is_large && !ds.drv.refuses
              ==> (r.OutOfMemory? <==> attempts == 3 && !ds.SmallFitsBeside(trail.left, m.size))
      ensures !m.is_large && !ds.drv.refuses && attempts == 3
              ==> Abandons(old(Remains()), trail.mid, m.size) && Abandons(trail.mid, trail.left, m.size)
      ensures m.is_large && !ds.drv.refuses && !ds.drv.faults && Chosen(old(pending_frees), done) == []
              ==> (r.Pointer? && attempts == 1 <==> old(ds.LargeFits(m.size)))
      ensures m.is_large && !ds.drv.refuses && !ds.drv.faults && old(ds.RoomFor(m.size)) ==> r.Pointer? && attempts == 1
      ensures r.OutOfMemory? ==> if m.is_large then Remains() == old(Remains()) else Abandons(trail.left, Remains(), m.size)
      ensures m.is_large && r.Pointer? ==> ds.LargeFitsBeside(old(Remains()), m.size)
      ensures m.is_large && !ds.drv.refuses && !ds.drv.faults
              ==> (r.OutOfMemory? <==> !ds.LargeFitsBeside(old(Remains()), m.size))
      ensures if r.Pointer? then Counted(old(Made()), m.size, m.is_large) else Made() == old(Made())
      ensures m.pool_id == NO_POOL ==> pool_allocs == old(pool_allocs)
      ensures AllocEffect(old(meta_), old(pool_allocs), old(late), if r.Pointer? then Some(r.ptr) else None, m, meta_, pool_allocs, late)
    {
      var ptr;
      ghost var q := StartOf(m.size, done);
      ptr, attempts, trail := AllocWithRetry(m.size, m.is_large, done);
      if m.is_large {
        LargeServed(m.size, q, ptr.Some?, attempts, trail);
      } else {
        SmallServed(m.size, q, ptr.Some?, attempts, trail);
      }
      if ptr.None? {
        return OutOfMemory, attempts, trail;
      }
      Record(ptr.value, m);
      r := Pointer(ptr.value);
    }

    /** Allocate: route by threshold, retry, then record. done says of each deferred free whether its
        events have completed by the first attempt. */
    method AllocImpl(size: nat, stream: int, done: PendingFree -> bool) returns (r: Outcome, ghost attempts: nat, ghost trail: Trail)
      requires Valid()
      modifies this`meta_, this`pool_allocs, this`late, this`pending_frees
      modifies ds, ds.small_stats, ds.large_stats, ds.small_alloc, ds.large_alloc, ds.pmm
      modifies ds.drv`s, ds.drv`used, ds.drv`next, ds.drv`top
      ensures Valid()
      // which outcome, after how many attempts
      ensures r.NullPointer? <==> size == 0
      ensures r.Disabled? <==> size > 0 && !enabled
      ensures r.NullPointer? || r.Disabled? ==> attempts == 0 && ds.num_alloc_retries == old(ds.num_alloc_retries)
                                                && pending_frees == old(pending_frees) && late == old(late) && ds.drv.s == old(ds.drv.s)
      ensures r.Pointer? || r.OutOfMemory? ==> 1 <= attempts <= 3 && ds.num_alloc_retries == old(ds.num_alloc_retries) + attempts - 1
      ensures r.OutOfMemory? ==> attempts == 3
      ensures ds.num_ooms == old(ds.num_ooms) + if r.OutOfMemory? then 1 else 0
      ensures if attempts < 2 then ds.pmm.Purges() == old(ds.pmm.Purges())
              else PurgedFor(size, old(ds.pmm.Purges()), ds.pmm.Purges(), trail.mid, trail.room, trail.released)
      ensures size > 0 && enabled ==> Course(size, size >= threshold, old(StartOf(size, done)), r.Pointer?, attempts, trail).Sound?
      // the records
      ensures attempts == 1 ==> pending_frees == Others(old(pending_frees), done)
      ensures attempts > 1 ==> pending_frees == []
      ensures !r.Pointer? ==> meta_ == old(meta_) && pool_allocs == old(pool_allocs) && Thinned(old(late), late)
      ensures if r.Pointer? then Counted(old(Made()), size, size >= threshold) else Made() == old(Made())
      ensures r.Pointer? ==>
                var id := old(if active_pools == [] then NO_POOL
                              else var e := active_pools[|active_pools| - 1];
                                if e.filter.Some? && e.filter.value(stream) then e.id else NO_POOL);
                var m := AllocMeta(size, ds.small_alloc.device, size >= threshold, stream, id, []);
                && (id == NO_POOL ==> pool_allocs == old(pool_allocs))
                && AllocEffect(old(meta_), old(pool_allocs), old(late), Some(r.ptr), m, meta_, pool_allocs, late)
      ensures r.OutOfMemory? ==> if size >= threshold then Remains() == old(Remains()) else Abandons(trail.left, Remains(), size)
      // small requests, when no driver call refuses
      ensures 0 < size < threshold && enabled && !ds.drv.refuses && Chosen(old(pending_frees), done) == []
              ==> (r.Pointer? && attempts == 1 <==> old(ds.SmallFits(size)))
      ensures 0 < size < threshold && enabled && !ds.drv.refuses
              ==> (r.OutOfMemory? <==> attempts == 3 && !ds.SmallFitsBeside(trail.left, size))
      ensures 0 < size < threshold && enabled && !ds.drv.refuses && attempts == 3
              ==> Abandons(old(Remains()), trail.mid, size) && Abandons(trail.mid, trail.left, size)
      // large requests
      ensures size > 0 && size >= threshold && enabled && !ds.drv.refuses && !ds.drv.faults && Chosen(old(pending_frees), done) == []
              ==> (r.Pointer? && attempts == 1 <==> old(ds.LargeFits(size)))
      ensures size > 0 && size >= threshold && enabled && !ds.drv.refuses && !ds.drv.faults && old(ds.RoomFor(size))
              ==> r.Pointer? && attempts == 1
      ensures size >= threshold && r.Pointer? ==> ds.LargeFitsBeside(old(Remains()), size)
      ensures size > 0 && size >= threshold && enabled && !ds.drv.refuses && !ds.drv.faults
              ==> (r.OutOfMemory? <==> !ds.LargeFitsBeside(old(Remains()), size))
    {
      attempts, trail := 0, Trail(Remains(), 0, 0, Remains());
      if size == 0 {
        return NullPointer, attempts, trail;
      }
      if !enabled {
        return Disabled, attempts, trail;
      }
      var m := AllocMeta(size, ds.small_alloc.device, size >= threshold, stream, PoolFor(stream), []);
      r, attempts, trail := Serve(m, done);
    }

    /** Later requests are routed by the new threshold. Whatever the threshold was and is, every
        earlier allocation is with the sub-allocator its record names, in its recorded size. */
    method SetThreshold(bytes: nat)
      requires Valid()
      modifies this`threshold
      ensures Valid() && threshold == bytes
      ensures forall p <- meta_ :: OwnedBy(p, meta_[p], ds.Smalls(), ds.Larges())
    {
      threshold := bytes;
      assert OpenOwners(Seal);
    }

    /** emptyCache: reclaim everything that can be reclaimed. */
    method EmptyCache()
      requires Valid()
      modifies this`late, this`pending_frees, ds.small_stats, ds.large_stats, ds.small_alloc, ds.large_alloc, ds.pmm
      modifies ds.drv`s, ds.drv`used
      ensures Valid() && pending_frees == [] && late == map[] && ds.drv.used == Unreclaimable() && Remains() == old(Remains())
      ensures Made() == old(Made()) && ds.pmm.Purges() == old(ds.pmm.Purges())
    {
      ReclaimAll();
    }

    // ---- pools ----------------------------------------------------------------------------------------

    /** The pool an allocation on this stream goes to: that of the innermost active entry, if its
        filter accepts the stream. */
    function PoolFor(stream: int): PoolId
      reads this`active_pools
    {
      var n := |active_pools|;
      if n > 0 && active_pools[n - 1].filter.Some? && active_pools[n - 1].filter.value(stream)
      then active_pools[n - 1].id else NO_POOL
    }

    method BeginAllocateToPool(id: PoolId, filter: Option<int -> bool>)
      requires Valid()
      modifies this`active_pools
      ensures Valid() && active_pools == old(active_pools) + [ActivePoolEntry(id, filter)]
      ensures RemoveLast(active_pools, id) == old(active_pools)
      ensures forall stream :: PoolFor(stream) == if filter.Some? && filter.value(stream) then id else NO_POOL
    {
      active_pools := active_pools + [ActivePoolEntry(id, filter)];
    }

    /** Remove the most recent entry for the pool. */
    method EndAllocateToPool(id: PoolId)
      requires Valid()
      modifies this`active_pools
      ensures Valid() && active_pools == RemoveLast(old(active_pools), id)
      ensures (forall e <- old(active_pools) :: e.id != id) ==> active_pools == old(active_pools)
      ensures (exists e :: e in old(active_pools) && e.id == id) ==>
                exists i :: 0 <= i < |old(active_pools)| && old(active_pools)[i].id == id
                  && (forall j :: i < j < |old(active_pools)| ==> old(active_pools)[j].id != id)
                  && active_pools == old(active_pools)[..i] + old(active_pools)[i + 1..]
    {
      LastOfPool(active_pools, id, |active_pools|);
      var it := |active_pools|;
      while it > 0
        invariant 0 <= it <= |active_pools| && active_pools == old(active_pools)
        invariant forall j :: it <= j < |active_pools| ==> active_pools[j].id != id
      {
        it := it - 1;
        LastOfPool(active_pools, id, it);
        if active_pools[it].id == id {
          active_pools := active_pools[..it] + active_pools[it + 1..];
          return;
        }
      }
    }

    /** Once the only pool that was begun has been ended, an allocation is untagged again. */
    method AllocAfterPool(id: PoolId, filter: Option<int -> bool>, size: nat, stream: int, done: PendingFree -> bool) returns (r: Outcome)
      requires Valid() && active_pools == []
      modifies this`meta_, this`pool_allocs, this`late, this`pending_frees, this`active_pools
      modifies ds, ds.small_stats, ds.large_stats, ds.small_alloc, ds.large_alloc, ds.pmm
      modifies ds.drv`s, ds.drv`used, ds.drv`next, ds.drv`top
      ensures Valid() && active_pools == [] && pool_allocs == old(pool_allocs)
      ensures r.Pointer? ==> r.ptr in meta_ && meta_[r.ptr].pool_id == NO_POOL
    {
      BeginAllocateToPool(id, filter);
      EndAllocateToPool(id);
      ghost var attempts, trail;
      r, attempts, trail := AllocImpl(size, stream, done);
    }

    /** Free every allocation of a pool, live or pending, and forget the pool. Live ones are freed
        without regard to their recorded streams. */
    method ReleasePool(id: PoolId)
      requires Valid()
      modifies this`meta_, this`pool_allocs, this`late, this`pending_frees
      modifies ds.small_stats, ds.large_stats, ds.small_alloc, ds.large_alloc, ds.pmm, ds.drv`s
      ensures Valid()
      ensures id !in old(pool_allocs) ==> meta_ == old(meta_) && pending_frees == old(pending_frees) && pool_allocs == old(pool_allocs)
                                          && ds.Smalls() == old(ds.Smalls()) && ds.Larges() == old(ds.Larges())
      ensures id in old(pool_allocs) ==> var gone := Tagged(old(meta_), id) + Ptrs(Chosen(old(pending_frees), InPool(id)));
                && meta_ == old(meta_) - Tagged(old(meta_), id) && pool_allocs == old(pool_allocs) - {id}
                && pending_frees == Others(old(pending_frees), InPool(id))
                && ds.Smalls() == old(ds.Smalls()) - gone && ds.Larges() == old(ds.Larges()) - gone
                && ReleaseEffect(old(meta_), old(pool_allocs), old(late), id, meta_, pool_allocs, late)
      ensures id != NO_POOL ==> Tagged(meta_, id) == {} && Chosen(pending_frees, InPool(id)) == []
    {
      if id !in pool_allocs {
        NothingInPool(meta_, late, pool_allocs, pending_frees, id);
        return;
      }
      ghost var meta0, late0, index0, pending0 := meta_, late, pool_allocs, pending_frees;
      ChosenIsTagged(late, pending_frees, id);
      PoolLateGone(meta_, late, ds.Smalls(), ds.Larges(), Tagged(meta_, id), Tagged(late, id));
      var all := TakePool(id);
      FreeAll(all);
      PoolGone(meta0, late0, index0, pending0, id, meta_, late, Ptrs(all));
    }

    /** Take all allocations of a pool off the records. */
    method TakePool(id: PoolId) returns (all: seq<PendingFree>)
      requires Valid() && id in pool_allocs
      modifies this`meta_, this`pool_allocs, this`late, this`pending_frees
      ensures Settling(all) && Ptrs(all) == Tagged(old(meta_), id) + Ptrs(Chosen(old(pending_frees), InPool(id)))
      ensures meta_ == old(meta_) - Tagged(old(meta_), id) && pool_allocs == old(pool_allocs) - {id}
      ensures late == old(late) + OnlyAt(old(meta_), Tagged(old(meta_), id))
      ensures pending_frees == Others(old(pending_frees), InPool(id))
    {
      var live := DetachPool(id);
      pool_allocs := pool_allocs - {id};
      var pending := Extract(InPool(id));
      all := live + pending;
      EntriesOfBoth(old(pending_frees), live, pending_frees, pending);
    }

    /** Take the live allocations of a pool off the metadata. */
    method DetachPool(id: PoolId) returns (live: seq<PendingFree>)
      requires Valid() && id in pool_allocs
      modifies this`meta_, this`late
      ensures Settling(live) && Ptrs(live) == Tagged(old(meta_), id)
      ensures meta_ == old(meta_) - Tagged(old(meta_), id)
      ensures late == old(late) + OnlyAt(old(meta_), Tagged(old(meta_), id))
    {
      live := [];
      ghost var meta0, late0 := meta_, late;
      EntryIsTagged(meta_, late, pool_allocs, id);
      var todo := pool_allocs[id];
      ghost var done: set<nat> := {};
      while todo != {}
        invariant Settling(live) && Ptrs(live) == done && done + todo == Tagged(meta0, id) && done !! todo
        invariant meta_ == meta0 - done && late == late0 + OnlyAt(meta0, done)
        decreases todo
      {
        var ptr :| ptr in todo;
        if ptr in meta_ {
          var m := meta_[ptr];
          var more := live + [PendingFree(ptr, m)];
          DetachOne(ptr, live, more);
          DetachMore(meta0, late0, done, ptr);
          live := more;
        }
        done, todo := done + {ptr}, todo - {ptr};
      }
    }

    method DetachOne(ptr: nat, ghost live: seq<PendingFree>, ghost more: seq<PendingFree>)
      requires Settling(live) && ptr in meta_ && more == live + [PendingFree(ptr, meta_[ptr])]
      modifies this`meta_, this`late
      ensures Settling(more)
      ensures meta_ == old(meta_) - {ptr} && late == old(late)[ptr := old(meta_)[ptr]] && ptr !in old(late)
    {
      ghost var e := PendingFree(ptr, meta_[ptr]);
      OwnersDefer(meta_, late, ds.Smalls(), ds.Larges(), ptr);
      CountDefer(ptr);
      ListsAdd(multiset(pending_frees) + multiset(live), late, e);
      late := late[ptr := meta_[ptr]];
      meta_ := meta_ - {ptr};
      assert multiset(pending_frees) + multiset(more) == multiset(pending_frees) + multiset(live) + multiset{e};
    }
  }
}

/** The allocator's records of live and pending allocations, against what the sub-allocators hold,
    the statistics and the pool index (include/vmm_allocator.h:70-136). */
module Ledger {
  import opened Common
  import opened Sums

  /** (0, 0) means no pool. */
  type PoolId = (nat, nat)

  const NO_POOL: PoolId := (0, 0)

  datatype AllocMeta = AllocMeta(size: nat, device: int, is_large: bool, alloc_stream: int, pool_id: PoolId,
                                 recorded_streams: seq<int>)

  type Metas = map<nat, AllocMeta>

  datatype PendingFree = PendingFree(ptr: nat, meta: AllocMeta)

  ghost function Ptrs(entries: seq<PendingFree>): set<nat> {
    set e | e in entries :: e.ptr
  }

  // ---- who owns what -------------------------------------------------------------------------------

  ghost predicate OwnedBy(p: nat, m: AllocMeta, smalls: map<nat, nat>, larges: map<nat, nat>) {
    && m.size > 0 && p > 0
    && if m.is_large then p in larges && larges[p] == m.size && p !in smalls
       else p in smalls && smalls[p] == AlignedSize(m.size) && p !in larges
  }

  ghost predicate OwnersOk(meta: Metas, late: Metas, smalls: map<nat, nat>, larges: map<nat, nat>) {
    && (forall p <- meta :: p !in late && OwnedBy(p, meta[p], smalls, larges))
    && (forall p <- late :: OwnedBy(p, late[p], smalls, larges))
    && (forall p <- smalls :: p in meta || p in late)
    && (forall p <- larges :: p in meta || p in late)
  }

  ghost predicate OpenOwners(s: Seal) {
    true
  }

  /** The allocations of the sub-allocators are the disjoint union of the live and the late ones,
      each recorded with the side and the size it was made with. */
  ghost function Owners(meta: Metas, late: Metas, smalls: map<nat, nat>, larges: map<nat, nat>): Verdict {
    if forall s {:trigger OpenOwners(s)} :: OpenOwners(s) ==> OwnersOk(meta, late, smalls, larges) then Sound else Broken
  }

  lemma OwnersAddLarge(meta: Metas, late: Metas, smalls: map<nat, nat>, larges: map<nat, nat>, p: nat, m: AllocMeta)
    requires Owners(meta, late, smalls, larges).Sound? && p > 0 && m.size > 0 && p !in smalls && p !in larges && m.is_large
    ensures p !in meta && p !in late && Owners(meta[p := m], late, smalls, larges[p := m.size]).Sound?
  {
    assert OpenOwners(Seal);
  }

  lemma OwnersAddSmall(meta: Metas, late: Metas, smalls: map<nat, nat>, larges: map<nat, nat>, p: nat, m: AllocMeta)
    requires Owners(meta, late, smalls, larges).Sound? && p > 0 && m.size > 0 && p !in smalls && p !in larges && !m.is_large
    ensures p !in meta && p !in late && Owners(meta[p := m], late, smalls[p := AlignedSize(m.size)], larges).Sound?
  {
    assert OpenOwners(Seal);
  }

  lemma OwnersDefer(meta: Metas, late: Metas, smalls: map<nat, nat>, larges: map<nat, nat>, p: nat)
    requires Owners(meta, late, smalls, larges).Sound? && p in meta
    ensures Owners(meta - {p}, late[p := meta[p]], smalls, larges).Sound? && p !in late
  {
    assert OpenOwners(Seal);
  }

  /** A late allocation is found on the side its record names, and leaves only that side. */
  lemma OwnersDrop(meta: Metas, late: Metas, smalls: map<nat, nat>, larges: map<nat, nat>, p: nat, large: bool,
                   smalls': map<nat, nat>, larges': map<nat, nat>)
    requires Owners(meta, late, smalls, larges).Sound? && p in late && large == late[p].is_large
    requires smalls' == (if large then smalls else smalls - {p}) && larges' == (if large then larges - {p} else larges)
    ensures p !in meta && if large then p in larges else p in smalls
    ensures smalls' == smalls - {p} && larges' == larges - {p}
    ensures Owners(meta, late - {p}, smalls', larges').Sound?
  {
    assert OpenOwners(Seal);
    assert OwnedBy(p, late[p], smalls, larges);
    assert smalls' == smalls - {p} && larges' == larges - {p};
  }

  lemma OwnersRetag(meta: Metas, late: Metas, smalls: map<nat, nat>, larges: map<nat, nat>, p: nat, m: AllocMeta)
    requires Owners(meta, late, smalls, larges).Sound? && p in meta && m.size == meta[p].size && m.is_large == meta[p].is_large
    ensures Owners(meta[p := m], late, smalls, larges).Sound?
  {
    assert OpenOwners(Seal);
  }

  lemma OwnersSettled(meta: Metas, smalls: map<nat, nat>, larges: map<nat, nat>)
    requires Owners(meta, map[], smalls, larges).Sound?
    ensures smalls.Keys <= meta.Keys && larges.Keys <= meta.Keys
  {
    assert OpenOwners(Seal);
  }

  // ---- statistics --------------------------------------------------------------------------------------

  /** One sub-pool's counters, seen between the atomic steps that change them. */
  class PoolStats {
    var current_bytes: int
    var peak_bytes: int
    var accumulated_alloc: int
    var accumulated_freed: int
    var num_allocs: int
    var num_frees: int

    /** What only recordAlloc changes. */
    ghost function Made(): (int, int, int)
      reads this
    {
      (accumulated_alloc, num_allocs, peak_bytes)
    }

    /** What the counters say when count allocations of that many bytes are held. */
    ghost predicate Tally(bytes: nat, count: nat)
      reads this
    {
      && current_bytes == bytes == accumulated_alloc - accumulated_freed
      && count == num_allocs - num_frees
      && peak_bytes >= current_bytes
    }

    constructor ()
      ensures Tally(0, 0) && peak_bytes == 0
    {
      current_bytes, peak_bytes, accumulated_alloc, accumulated_freed, num_allocs, num_frees := 0, 0, 0, 0, 0, 0;
    }

    /** One allocation of n bytes more than the statistics before. */
    ghost predicate Gained(before: (int, int, int), n: nat)
      reads this
    {
      && accumulated_alloc == before.0 + n && num_allocs == before.1 + 1
      && peak_bytes == if current_bytes > before.2 then current_bytes else before.2
    }

    method RecordAlloc(n: nat, ghost bytes: nat, ghost count: nat)
      requires Tally(bytes, count)
      modifies this
      ensures Tally(bytes + n, count + 1) && current_bytes == old(current_bytes) + n
      ensures accumulated_alloc == old(accumulated_alloc) + n && num_allocs == old(num_allocs) + 1
      ensures accumulated_freed == old(accumulated_freed) && num_frees == old(num_frees)
      ensures peak_bytes == if bytes + n > old(peak_bytes) then bytes + n else old(peak_bytes)
    {
      var cur := current_bytes + n;
      current_bytes := cur;
      accumulated_alloc := accumulated_alloc + n;
      num_allocs := num_allocs + 1;
      if cur > peak_bytes {
        peak_bytes := cur;
      }
    }

    method RecordFree(n: nat, ghost bytes: nat, ghost count: nat)
      requires Tally(bytes, count) && n <= bytes && count > 0
      modifies this
      ensures Tally(bytes - n, count - 1) && current_bytes == old(current_bytes) - n
      ensures accumulated_freed == old(accumulated_freed) + n && num_frees == old(num_frees) + 1
      ensures Made() == old(Made())
    {
      current_bytes := current_bytes - n;
      accumulated_freed := accumulated_freed + n;
      num_frees := num_frees + 1;
    }
  }

  /** The sizes of the allocations on one side. */
  ghost function SizesOf(m: Metas, large: bool): map<nat, nat> {
    map p | p in m && m[p].is_large == large :: m[p].size
  }

  /** The bytes and the number of the live and late allocations on one side. */
  ghost function HeldBytes(meta: Metas, late: Metas, large: bool): nat {
    Sum(SizesOf(meta, large)) + Sum(SizesOf(late, large))
  }

  ghost function HeldCount(meta: Metas, late: Metas, large: bool): nat {
    |SizesOf(meta, large)| + |SizesOf(late, large)|
  }

  lemma HeldAdd(meta: Metas, late: Metas, p: nat, a: AllocMeta, large: bool)
    requires p !in meta
    ensures HeldBytes(meta[p := a], late, large) == HeldBytes(meta, late, large) + if a.is_large == large then a.size else 0
    ensures HeldCount(meta[p := a], late, large) == HeldCount(meta, late, large) + if a.is_large == large then 1 else 0
  {
    var was, now := SizesOf(meta, large), SizesOf(meta[p := a], large);
    if a.is_large == large {
      assert now == was[p := a.size];
      SumInsert(was, p, a.size);
    } else {
      assert now == was;
    }
  }

  lemma HeldDrop(meta: Metas, late: Metas, p: nat, large: bool)
    requires p in late
    ensures HeldBytes(meta, late - {p}, large) == HeldBytes(meta, late, large) - if late[p].is_large == large then late[p].size else 0
    ensures HeldCount(meta, late - {p}, large) == HeldCount(meta, late, large) - if late[p].is_large == large then 1 else 0
  {
    SizesDrop(late, p, large);
    if late[p].is_large == large {
      SumRemove(SizesOf(late, large), p);
      assert |SizesOf(late, large) - {p}| == |SizesOf(late, large)| - 1;
    }
  }

  lemma SizesDrop(m: Metas, p: nat, large: bool)
    requires p in m
    ensures SizesOf(m - {p}, large) == if m[p].is_large == large then SizesOf(m, large) - {p} else SizesOf(m, large)
    ensures m[p].is_large == large ==> p in SizesOf(m, large) && SizesOf(m, large)[p] == m[p].size
  {
  }

  /** Moving an allocation from the live to the late ones changes no total. */
  lemma HeldDefer(meta: Metas, late: Metas, p: nat, large: bool)
    requires p in meta && p !in late
    ensures HeldBytes(meta - {p}, late[p := meta[p]], large) == HeldBytes(meta, late, large)
    ensures HeldCount(meta - {p}, late[p := meta[p]], large) == HeldCount(meta, late, large)
  {
    HeldDrop(late, meta, p, large);
    HeldAdd(late, meta - {p}, p, meta[p], large);
  }

  lemma HeldRetag(meta: Metas, late: Metas, p: nat, m: AllocMeta, large: bool)
    requires p in meta && m.size == meta[p].size && m.is_large == meta[p].is_large
    ensures HeldBytes(meta[p := m], late, large) == HeldBytes(meta, late, large)
    ensures HeldCount(meta[p := m], late, large) == HeldCount(meta, late, large)
  {
    assert SizesOf(meta[p := m], large) == SizesOf(meta, large);
  }

  // ---- the pool index -------------------------------------------------------------------------------------

  type PoolIndex = map<PoolId, set<nat>>

  ghost function Tagged(meta: Metas, id: PoolId): set<nat> {
    set p | p in meta && meta[p].pool_id == id
  }

  ghost predicate HasEntry(index: PoolIndex, id: PoolId) {
    id == NO_POOL || id in index
  }

  ghost predicate IndexOk(meta: Metas, late: Metas, index: PoolIndex) {
    && NO_POOL !in index
    && (forall id <- index :: index[id] == Tagged(meta, id))
    && (forall p <- meta :: HasEntry(index, meta[p].pool_id))
    && (forall p <- late :: HasEntry(index, late[p].pool_id))
  }

  ghost predicate OpenIndex(s: Seal) {
    true
  }

  /** Each entry of pool_allocs lists exactly the live allocations tagged with its id, and no
      tagged allocation lacks an entry. */
  ghost function Indexed(meta: Metas, late: Metas, index: PoolIndex): Verdict {
    if forall s {:trigger OpenIndex(s)} :: OpenIndex(s) ==> IndexOk(meta, late, index) then Sound else Broken
  }

  /** pool_allocs_[id].insert(ptr), unless id is no pool. */
  function Enlist(index: PoolIndex, id: PoolId, p: nat): PoolIndex {
    if id == NO_POOL then index else index[id := (if id in index then index[id] else {}) + {p}]
  }

  /** Take ptr off the list of its pool, if the pool has one. */
  function Delist(index: PoolIndex, id: PoolId, p: nat): PoolIndex {
    if id != NO_POOL && id in index then index[id := index[id] - {p}] else index
  }

  lemma IndexAdd(meta: Metas, late: Metas, index: PoolIndex, p: nat, m: AllocMeta)
    requires Indexed(meta, late, index).Sound? && p !in meta
    ensures Indexed(meta[p := m], late, Enlist(index, m.pool_id, p)).Sound?
  {
    assert OpenIndex(Seal);
    var index' := Enlist(index, m.pool_id, p);
    forall id | id in index'
      ensures index'[id] == Tagged(meta[p := m], id)
    {
      assert Tagged(meta[p := m], id) == Tagged(meta, id) + if m.pool_id == id then {p} else {};
      if id !in index {
        assert Tagged(meta, id) == {} by {
          assert forall q <- meta :: HasEntry(index, meta[q].pool_id);
        }
      }
    }
  }

  lemma IndexDefer(meta: Metas, late: Metas, index: PoolIndex, p: nat)
    requires Indexed(meta, late, index).Sound? && p in meta
    ensures Indexed(meta - {p}, late[p := meta[p]], Delist(index, meta[p].pool_id, p)).Sound?
  {
    assert OpenIndex(Seal);
    var index' := Delist(index, meta[p].pool_id, p);
    assert HasEntry(index, meta[p].pool_id);
    forall id | id in index'
      ensures index'[id] == Tagged(meta - {p}, id)
    {
      assert Tagged(meta - {p}, id) == Tagged(meta, id) - {p};
      assert meta[p].pool_id != id ==> p !in Tagged(meta, id);
    }
  }

  lemma IndexShrink(meta: Metas, late: Metas, index: PoolIndex, gone: set<nat>)
    requires Indexed(meta, late, index).Sound?
    ensures Indexed(meta, late - gone, index).Sound?
  {
    assert OpenIndex(Seal);
  }

  lemma EntryIsTagged(meta: Metas, late: Metas, index: PoolIndex, id: PoolId)
    requires Indexed(meta, late, index).Sound? && id in index
    ensures index[id] == Tagged(meta, id) && id != NO_POOL
  {
    assert OpenIndex(Seal);
  }

  /** Once a pool's allocations are gone, its entry can go too. */
  lemma IndexReleased(meta0: Metas, late0: Metas, index0: PoolIndex, id: PoolId, meta: Metas, late: Metas)
    requires Indexed(meta0, late0, index0).Sound? && id in index0 && meta == meta0 - Tagged(meta0, id)
    requires forall p <- late :: late[p].pool_id != id && (Same(late, late0, p) || Same(late, meta0, p))
    ensures Indexed(meta, late, index0 - {id}).Sound? && Tagged(meta, id) == {}
  {
    assert OpenIndex(Seal);
    var index := index0 - {id};
    forall p | p in late
      ensures HasEntry(index, late[p].pool_id)
    {
      assert Same(late, late0, p) ==> HasEntry(index0, late0[p].pool_id);
      assert Same(late, meta0, p) ==> HasEntry(index0, meta0[p].pool_id);
    }
    ReleasedMeta(meta0, index0, id, meta);
  }

  ghost predicate Same(a: Metas, b: Metas, p: nat)
    requires p in a
  {
    p in b && a[p] == b[p]
  }

  lemma ReleasedMeta(meta0: Metas, index0: PoolIndex, id: PoolId, meta: Metas)
    requires meta == meta0 - Tagged(meta0, id)
    requires forall k <- index0 :: index0[k] == Tagged(meta0, k)
    requires forall p <- meta0 :: HasEntry(index0, meta0[p].pool_id)
    ensures forall k <- index0 - {id} :: (index0 - {id})[k] == Tagged(meta, k)
    ensures forall p <- meta :: HasEntry(index0 - {id}, meta[p].pool_id)
    ensures Tagged(meta, id) == {}
  {
    forall p | p in meta
      ensures HasEntry(index0 - {id}, meta[p].pool_id) && meta[p].pool_id != id
    {
      assert HasEntry(index0, meta0[p].pool_id);
      assert p !in Tagged(meta0, id);
    }
    forall k | k in index0 - {id}
      ensures index0[k] == Tagged(meta, k)
    {
      assert Tagged(meta, k) == Tagged(meta0, k);
    }
  }

  ghost function OnlyAt(meta: Metas, keys: set<nat>): Metas {
    map p | p in meta && p in keys :: meta[p]
  }

  lemma IndexRetag(meta: Metas, late: Metas, index: PoolIndex, p: nat, m: AllocMeta)
    requires Indexed(meta, late, index).Sound? && p in meta && m.pool_id == meta[p].pool_id
    ensures Indexed(meta[p := m], late, index).Sound?
  {
    assert OpenIndex(Seal);
    forall id | id in index
      ensures index[id] == Tagged(meta[p := m], id)
    {
      assert Tagged(meta[p := m], id) == Tagged(meta, id);
    }
  }

  // ---- what the calls do to the records --------------------------------------------------------------------

  /** Some late allocations are gone; the others are as they were. */
  ghost predicate Thinned(late0: Metas, late: Metas) {
    late.Keys <= late0.Keys && forall p <- late :: late[p] == late0[p]
  }

  /** alloc_impl records p, or nothing; deferred frees may have been completed on the way. */
  ghost predicate AllocEffect(meta0: Metas, index0: PoolIndex, late0: Metas, p: Option<nat>, m: AllocMeta,
                              meta: Metas, index: PoolIndex, late: Metas)
  {
    && Thinned(late0, late)
    && match p
       case None => meta == meta0 && index == index0
       case Some(ptr) => ptr !in meta0 && ptr !in late && meta == meta0[ptr := m] && index == Enlist(index0, m.pool_id, ptr)
  }

  lemma AllocMeans(meta0: Metas, index0: PoolIndex, late0: Metas, p: nat, m: AllocMeta, meta: Metas, index: PoolIndex, late: Metas)
    requires AllocEffect(meta0, index0, late0, Some(p), m, meta, index, late)
    ensures p !in meta0 && p in meta && meta[p] == m && (m.pool_id == NO_POOL ==> index == index0)
  {
  }

  /** free_impl takes p off the records, and defers the free exactly if streams were recorded. */
  ghost predicate FreeEffect(meta0: Metas, index0: PoolIndex, late0: Metas, p: nat, meta: Metas, index: PoolIndex, late: Metas)
    requires p in meta0
  {
    && meta == meta0 - {p} && index == Delist(index0, meta0[p].pool_id, p)
    && late == if meta0[p].recorded_streams == [] then late0 else late0[p := meta0[p]]
  }

  /** releasePool leaves nothing of the pool on the records. */
  ghost predicate ReleaseEffect(meta0: Metas, index0: PoolIndex, late0: Metas, id: PoolId, meta: Metas, index: PoolIndex, late: Metas) {
    meta == meta0 - Tagged(meta0, id) && index == index0 - {id} && late == late0 - Tagged(late0, id)
  }

  // ---- the list of pending frees ----------------------------------------------------------------------------

  ghost predicate ListsAll(entries: multiset<PendingFree>, late: Metas) {
    && (forall e :: e in entries ==> entries[e] == 1 && e.ptr in late && late[e.ptr] == e.meta)
    && (forall p <- late :: PendingFree(p, late[p]) in entries)
  }

  ghost predicate OpenLists(s: Seal) {
    true
  }

  /** The entries are the late allocations, each once. */
  ghost function Lists(entries: multiset<PendingFree>, late: Metas): Verdict {
    if forall s {:trigger OpenLists(s)} :: OpenLists(s) ==> ListsAll(entries, late) then Sound else Broken
  }

  lemma ListsAdd(entries: multiset<PendingFree>, late: Metas, e: PendingFree)
    requires Lists(entries, late).Sound? && e.ptr !in late
    ensures Lists(entries + multiset{e}, late[e.ptr := e.meta]).Sound?
  {
    assert OpenLists(Seal);
  }

  lemma ListsFind(entries: multiset<PendingFree>, late: Metas, e: PendingFree)
    requires Lists(entries, late).Sound? && e in entries
    ensures e.ptr in late && late[e.ptr] == e.meta
  {
    assert OpenLists(Seal);
  }

  lemma ListsDrop(entries: multiset<PendingFree>, late: Metas, e: PendingFree)
    requires Lists(entries, late).Sound? && e in entries
    ensures Lists(entries - multiset{e}, late - {e.ptr}).Sound?
  {
    assert OpenLists(Seal);
    forall f | f in entries - multiset{e}
      ensures f.ptr != e.ptr
    {
      assert f in entries && f != e;
      assert f.ptr == e.ptr ==> f.meta == e.meta;
    }
  }

  lemma ReadyAreLate(pending: multiset<PendingFree>, ready: seq<PendingFree>, late: Metas)
    requires Lists(pending + multiset(ready), late).Sound?
    ensures Ptrs(ready) <= late.Keys
  {
    assert OpenLists(Seal);
    forall e | e in ready
      ensures e.ptr in late
    {
      assert e in pending + multiset(ready);
    }
  }

  lemma ListsEmpty(late: Metas)
    requires Lists(multiset{}, late).Sound?
    ensures late == map[]
  {
    assert OpenLists(Seal);
  }

  /** Taking entry i out of a list. */
  lemma TakeOut<T>(s: seq<T>, i: nat)
    requires i < |s|
    ensures multiset(s[..i] + s[i + 1..]) == multiset(s) - multiset{s[i]} && s[i] in multiset(s)
  {
    assert s == s[..i] + [s[i]] + s[i + 1..];
  }

  /** The records of an allocator that has handed out nothing. */
  lemma NothingHeld(large: bool)
    ensures HeldBytes(map[], map[], large) == 0 && HeldCount(map[], map[], large) == 0
    ensures Owners(map[], map[], map[], map[]).Sound? && Indexed(map[], map[], map[]).Sound? && Lists(multiset{}, map[]).Sound?
  {
    assert SizesOf(map[], large) == map[];
  }
}

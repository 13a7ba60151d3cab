/** The blocks behind large allocations: how a sequence of blocks is laid out from an address
    upwards, and a driver state with one allocation under construction or on its way out
    (csrc/large_allocator.cc). */
module LargeBlocks {
  import opened Common
  import opened Parts
  import D = CudaDriver

  lemma {:induction false} TotalAppend(blocks: seq<PhysicalBlock>, b: PhysicalBlock)
    ensures Total(blocks + [b]) == Total(blocks) + b.size
  {
    if blocks != [] {
      assert (blocks + [b])[1..] == blocks[1..] + [b];
      TotalAppend(blocks[1..], b);
    }
  }

  /** The mappings of blocks placed end to end from address at, in one reservation. */
  ghost function BlockMaps(region: nat, at: nat, blocks: seq<PhysicalBlock>): D.Maps
    decreases |blocks|
  {
    if blocks == [] then map[]
    else BlockMaps(region, at + blocks[0].size, blocks[1..])[at := D.Segment(blocks[0].handle, blocks[0].size, region)]
  }

  ghost predicate Positive(blocks: seq<PhysicalBlock>) {
    forall b <- blocks :: b.size > 0
  }

  lemma {:induction false} BlockMapsRange(region: nat, at: nat, blocks: seq<PhysicalBlock>)
    requires Positive(blocks)
    ensures forall v <- BlockMaps(region, at, blocks) ::
              var m := BlockMaps(region, at, blocks)[v];
              m.region == region && m.size > 0 && at <= v && v + m.size <= at + Total(blocks)
    decreases |blocks|
  {
    if blocks != [] {
      assert forall b <- blocks[1..] :: b in blocks;
      BlockMapsRange(region, at + blocks[0].size, blocks[1..]);
    }
  }

  lemma {:induction false} BlockMapsAppend(region: nat, at: nat, blocks: seq<PhysicalBlock>, b: PhysicalBlock)
    requires Positive(blocks) && b.size > 0
    ensures BlockMaps(region, at, blocks + [b])
            == BlockMaps(region, at, blocks)[at + Total(blocks) := D.Segment(b.handle, b.size, region)]
    decreases |blocks|
  {
    if blocks != [] {
      assert (blocks + [b])[1..] == blocks[1..] + [b];
      assert forall c <- blocks[1..] :: c in blocks;
      assert blocks[0] in blocks;
      BlockMapsAppend(region, at + blocks[0].size, blocks[1..], b);
    }
  }

  /** The first block's mapping is the one at address at; without it the rest is laid out after it. */
  lemma BlockMapsFirst(region: nat, at: nat, blocks: seq<PhysicalBlock>)
    requires Positive(blocks) && blocks != []
    ensures at in BlockMaps(region, at, blocks)
    ensures BlockMaps(region, at, blocks)[at] == D.Segment(blocks[0].handle, blocks[0].size, region)
    ensures BlockMaps(region, at, blocks) - {at} == BlockMaps(region, at + blocks[0].size, blocks[1..])
  {
    assert forall b <- blocks[1..] :: b in blocks;
    assert blocks[0] in blocks;
    BlockMapsRange(region, at + blocks[0].size, blocks[1..]);
  }

  /** Every byte from at to the end of the last block is mapped. */
  lemma {:induction false} BlockMapsCover(region: nat, at: nat, blocks: seq<PhysicalBlock>, x: nat)
    requires Positive(blocks) && at <= x < at + Total(blocks)
    ensures exists v :: D.Holds(BlockMaps(region, at, blocks), v, x)
    decreases |blocks|
  {
    assert blocks[0] in blocks && forall b <- blocks[1..] :: b in blocks;
    if x < at + blocks[0].size {
      assert D.Holds(BlockMaps(region, at, blocks), at, x);
    } else {
      BlockMapsCover(region, at + blocks[0].size, blocks[1..], x);
      BlockMapsFirst(region, at, blocks);
      var v :| D.Holds(BlockMaps(region, at + blocks[0].size, blocks[1..]), v, x);
      assert D.Holds(BlockMaps(region, at, blocks), v, x);
    }
  }

  ghost function Uses(blocks: seq<PhysicalBlock>): map<nat, nat> {
    if blocks == [] then map[] else Uses(blocks[1..])[blocks[0].handle := blocks[0].size]
  }

  ghost predicate Distinct(blocks: seq<PhysicalBlock>) {
    forall i, j :: 0 <= i < j < |blocks| ==> blocks[i].handle != blocks[j].handle
  }

  lemma {:induction false} UsesOf(blocks: seq<PhysicalBlock>, h: nat)
    ensures h in Uses(blocks) <==> exists i :: 0 <= i < |blocks| && blocks[i].handle == h
  {
    if blocks != [] {
      UsesOf(blocks[1..], h);
      if h in Uses(blocks[1..]) {
        var i :| 0 <= i < |blocks[1..]| && blocks[1..][i].handle == h;
        assert blocks[i + 1].handle == h;
      }
      if i :| 0 <= i < |blocks| && blocks[i].handle == h {
        assert i > 0 ==> blocks[1..][i - 1].handle == h;
      }
    }
  }

  lemma {:induction false} UsesAppend(blocks: seq<PhysicalBlock>, b: PhysicalBlock)
    requires b.handle !in Uses(blocks)
    ensures Uses(blocks + [b]) == Uses(blocks)[b.handle := b.size]
  {
    if blocks != [] {
      assert (blocks + [b])[1..] == blocks[1..] + [b];
      UsesAppend(blocks[1..], b);
    } else {
      assert [b][1..] == [];
    }
  }

  lemma UsesFirst(blocks: seq<PhysicalBlock>)
    requires blocks != [] && Distinct(blocks)
    ensures blocks[0].handle in Uses(blocks) && Uses(blocks)[blocks[0].handle] == blocks[0].size
    ensures Uses(blocks) - {blocks[0].handle} == Uses(blocks[1..])
  {
    UsesOf(blocks[1..], blocks[0].handle);
  }

  // ---- one allocation on top of the others --------------------------------------------------------

  ghost function AccessFor(maps: D.Maps, devices: set<int>): map<nat, set<int>> {
    map v | v in maps :: devices
  }

  ghost predicate DisjointMaps(a: D.Maps, b: D.Maps) {
    forall v <- a :: v !in b
  }

  ghost predicate FreshBlocks(used: map<nat, nat>, blocks: seq<PhysicalBlock>) {
    Distinct(blocks) && Positive(blocks) && forall b <- blocks :: b.handle !in used
  }

  /** Part r is r0 plus a reservation [va, va + total) in which the first n of the blocks held are
      mapped from address at on. */
  ghost predicate OverlayOk(r0: Part, r: Part, va: nat, total: nat, at: nat, held: seq<PhysicalBlock>, n: nat, devices: set<int>) {
    && n <= |held|
    && va > 0 && va !in r0.reserved && (forall v <- r0.maps :: r0.maps[v].region != va)
    && r0.access.Keys == r0.maps.Keys
    && FreshBlocks(r0.used, held)
    && DisjointMaps(r0.maps, BlockMaps(va, at, held[..n]))
    && r.reserved == r0.reserved[va := total]
    && r.maps == r0.maps + BlockMaps(va, at, held[..n])
    && r.access == r0.access + AccessFor(BlockMaps(va, at, held[..n]), devices)
    && r.used == r0.used + Uses(held)
  }

  ghost predicate OpenOverlay(s: Seal) {
    true
  }

  ghost function Overlay(r0: Part, r: Part, va: nat, total: nat, at: nat, held: seq<PhysicalBlock>, n: nat, devices: set<int>): Verdict {
    if forall s {:trigger OpenOverlay(s)} :: OpenOverlay(s) ==> OverlayOk(r0, r, va, total, at, held, n, devices)
    then Sound else Broken
  }

  /** A reservation just made, with no block yet. */
  lemma OverlayStart(r0: Part, va: nat, total: nat)
    requires va > 0 && va !in r0.reserved && (forall v <- r0.maps :: r0.maps[v].region != va) && r0.access.Keys == r0.maps.Keys
    ensures Overlay(r0, r0.(reserved := r0.reserved[va := total]), va, total, va, [], 0, {}).Sound?
  {
  }

  /** A block has been obtained but not mapped. */
  lemma OverlayTake(r0: Part, r: Part, va: nat, total: nat, at: nat, held: seq<PhysicalBlock>, devices: set<int>, b: PhysicalBlock)
    requires Overlay(r0, r, va, total, at, held, |held|, devices).Sound? && b.size > 0 && b.handle !in r.used
    ensures Overlay(r0, r.(used := r.used[b.handle := b.size]), va, total, at, held + [b], |held|, devices).Sound?
  {
    assert OpenOverlay(Seal);
    UsesOf(held, b.handle);
    UsesAppend(held, b);
    assert (held + [b])[..|held|] == held[..|held|];
    assert r0.used + Uses(held)[b.handle := b.size] == (r0.used + Uses(held))[b.handle := b.size];
    forall i, j | 0 <= i < j < |held + [b]|
      ensures (held + [b])[i].handle != (held + [b])[j].handle
    {
      assert j == |held| ==> held[i].handle in Uses(held) by {
        UsesOf(held, held[i].handle);
      }
    }
  }

  /** Where the next block goes: right after those mapped, in no other mapping's way. */
  lemma OverlayNext(r0: Part, r: Part, va: nat, total: nat, held: seq<PhysicalBlock>, n: nat, devices: set<int>)
    requires Overlay(r0, r, va, total, va, held, n, devices).Sound?
    ensures n <= |held|
    ensures forall v <- r.maps :: r.maps[v].region == va ==> r.maps[v].size > 0 && v + r.maps[v].size <= va + Total(held[..n])
  {
    assert OpenOverlay(Seal);
    assert forall b <- held[..n] :: b in held;
    BlockMapsRange(va, va, held[..n]);
  }

  ghost function PlusMap(r: Part, v: nat, seg: D.Segment): Part {
    r.(maps := r.maps[v := seg], access := r.access[v := {}])
  }

  lemma PlusMaps(maps0: D.Maps, access0: map<nat, set<int>>, bm: D.Maps, v: nat, seg: D.Segment)
    requires DisjointMaps(maps0, bm) && v !in maps0
    ensures maps0 + bm[v := seg] == (maps0 + bm)[v := seg] && DisjointMaps(maps0, bm[v := seg])
    ensures access0 + AccessFor(bm[v := seg], {}) == (access0 + AccessFor(bm, {}))[v := {}]
  {
  }

  lemma NextMap(va: nat, held: seq<PhysicalBlock>, n: nat)
    requires n < |held| && Positive(held)
    ensures BlockMaps(va, va, held[..n + 1])
            == BlockMaps(va, va, held[..n])[va + Total(held[..n]) := D.Segment(held[n].handle, held[n].size, va)]
  {
    assert held[..n + 1] == held[..n] + [held[n]];
    assert held[n] in held && forall b <- held[..n] :: b in held;
    BlockMapsAppend(va, va, held[..n], held[n]);
  }

  lemma OverlayMap(r0: Part, r: Part, va: nat, total: nat, held: seq<PhysicalBlock>, n: nat, v: nat)
    requires Overlay(r0, r, va, total, va, held, n, {}).Sound? && n < |held|
    requires v == va + Total(held[..n]) && v !in r.maps
    ensures Overlay(r0, PlusMap(r, v, D.Segment(held[n].handle, held[n].size, va)), va, total, va, held, n + 1, {}).Sound?
  {
    assert OpenOverlay(Seal);
    NextMap(va, held, n);
    PlusMaps(r0.maps, r0.access, BlockMaps(va, va, held[..n]), v, D.Segment(held[n].handle, held[n].size, va));
  }

  lemma GrantMaps(maps0: D.Maps, access0: map<nat, set<int>>, bm: D.Maps, va: nat, total: nat, devices: set<int>)
    requires DisjointMaps(maps0, bm) && access0.Keys == maps0.Keys
    requires (forall v <- bm :: va <= v < va + total) && (forall v <- maps0 :: !(va <= v < va + total))
    ensures D.Grant(access0 + AccessFor(bm, {}), va, total, devices) == access0 + AccessFor(bm, devices)
  {
    var none: set<int> := {};
    assert none + devices == devices;
  }

  /** Granting access to the whole reservation reaches its mappings and no others. */
  lemma OverlayGrant(r0: Part, r: Part, va: nat, total: nat, held: seq<PhysicalBlock>, n: nat, devices: set<int>)
    requires Overlay(r0, r, va, total, va, held, n, {}).Sound? && n <= |held| && total == Total(held[..n])
    requires forall v <- r.maps :: va <= v < va + total ==> r.maps[v].region == va
    ensures Overlay(r0, r.(access := D.Grant(r.access, va, total, devices)), va, total, va, held, n, devices).Sound?
  {
    assert OpenOverlay(Seal);
    assert forall b <- held[..n] :: b in held;
    BlockMapsRange(va, va, held[..n]);
    var bm := BlockMaps(va, va, held[..n]);
    forall v | v in r0.maps
      ensures !(va <= v < va + total)
    {
      assert v in r.maps && r.maps[v] == r0.maps[v];
    }
    GrantMaps(r0.maps, r0.access, bm, va, total, devices);
  }

  ghost function MinusMap(r: Part, v: nat): Part {
    r.(maps := r.maps - {v}, access := r.access - {v})
  }

  lemma MinusPlus(r0: D.Maps, a0: map<nat, set<int>>, bm: D.Maps, at: nat, devices: set<int>)
    requires DisjointMaps(r0, bm) && at in bm && a0.Keys == r0.Keys
    ensures (r0 + bm) - {at} == r0 + (bm - {at})
    ensures (a0 + AccessFor(bm, devices)) - {at} == a0 + AccessFor(bm - {at}, devices)
    ensures DisjointMaps(r0, bm - {at})
  {
  }

  /** The first block held, if mapped, is mapped at address at. */
  lemma OverlayFirst(r0: Part, r: Part, va: nat, total: nat, at: nat, held: seq<PhysicalBlock>, n: nat, devices: set<int>)
    requires Overlay(r0, r, va, total, at, held, n, devices).Sound? && held != []
    ensures held[0].handle in r.used && r.used[held[0].handle] == held[0].size
    ensures n > 0 ==> at in r.maps && r.maps[at] == D.Segment(held[0].handle, held[0].size, va)
    ensures n == 0 ==> forall v <- r.maps :: r.maps[v].region != va
  {
    assert OpenOverlay(Seal);
    UsesFirst(held);
    if n > 0 {
      assert forall b <- held[..n] :: b in held;
      assert held[..n][0] == held[0];
      BlockMapsFirst(va, at, held[..n]);
    }
  }

  lemma UsedDrop(used0: map<nat, nat>, held: seq<PhysicalBlock>)
    requires FreshBlocks(used0, held) && held != []
    ensures used0 + Uses(held) - {held[0].handle} == used0 + Uses(held[1..])
    ensures FreshBlocks(used0, held[1..])
  {
    UsesFirst(held);
    assert held[0] in held && forall b <- held[1..] :: b in held;
  }

  lemma DropFirst(va: nat, at: nat, held: seq<PhysicalBlock>, n: nat)
    requires 0 < n <= |held| && Positive(held)
    ensures at in BlockMaps(va, at, held[..n])
    ensures BlockMaps(va, at, held[..n]) - {at} == BlockMaps(va, at + held[0].size, held[1..][..n - 1])
  {
    assert forall b <- held[..n] :: b in held;
    assert held[..n][0] == held[0] && held[..n][1..] == held[1..][..n - 1];
    BlockMapsFirst(va, at, held[..n]);
  }

  /** Unmapping the first block and giving it back leaves the rest laid out after it. */
  lemma OverlayDrop(r0: Part, r: Part, va: nat, total: nat, at: nat, held: seq<PhysicalBlock>, n: nat, devices: set<int>,
                    r': Part, at': nat, rest: seq<PhysicalBlock>, n': nat)
    requires Overlay(r0, r, va, total, at, held, n, devices).Sound? && 0 < n <= |held|
    requires r' == MinusMap(r, at).(used := r.used - {held[0].handle})
    requires at' == at + held[0].size && rest == held[1..] && n' == n - 1
    ensures Overlay(r0, r', va, total, at', rest, n', devices).Sound?
  {
    DropKeepsOverlay(r0, r, va, total, at, held, n, devices);
  }

  lemma DropKeepsOverlay(r0: Part, r: Part, va: nat, total: nat, at: nat, held: seq<PhysicalBlock>, n: nat, devices: set<int>)
    requires Overlay(r0, r, va, total, at, held, n, devices).Sound? && 0 < n <= |held|
    ensures var s := MinusMap(r, at).(used := r.used - {held[0].handle});
            Overlay(r0, s, va, total, at + held[0].size, held[1..], n - 1, devices).Sound?
  {
    assert OpenOverlay(Seal);
    UsedDrop(r0.used, held);
    DropFirst(va, at, held, n);
    MinusPlus(r0.maps, r0.access, BlockMaps(va, at, held[..n]), at, devices);
  }

  /** Giving back a block that was never mapped. */
  lemma OverlayDropUnmapped(r0: Part, r: Part, va: nat, total: nat, at: nat, held: seq<PhysicalBlock>, devices: set<int>)
    requires Overlay(r0, r, va, total, at, held, 0, devices).Sound? && held != []
    ensures Overlay(r0, r.(used := r.used - {held[0].handle}), va, total, at, held[1..], 0, devices).Sound?
  {
    assert OpenOverlay(Seal);
    UsedDrop(r0.used, held);
    assert held[..0] == [] && held[1..][..0] == [];
  }

  /** With no block held, only the reservation is left to undo. */
  lemma OverlayDone(r0: Part, r: Part, va: nat, total: nat, at: nat, devices: set<int>)
    requires Overlay(r0, r, va, total, at, [], 0, devices).Sound?
    ensures r == r0.(reserved := r0.reserved[va := total]) && va !in r0.reserved
    ensures r.(reserved := r.reserved - {va}) == r0
    ensures forall v <- r.maps :: r.maps[v].region != va
  {
    assert OpenOverlay(Seal);
    assert r0.maps + map[] == r0.maps && r0.access + map[] == r0.access && r0.used + map[] == r0.used;
    assert r0.reserved[va := total] - {va} == r0.reserved;
  }

  /** The mapped blocks cover the reservation. */
  lemma OverlayCovers(r0: Part, r: Part, va: nat, total: nat, held: seq<PhysicalBlock>, n: nat, devices: set<int>)
    requires Overlay(r0, r, va, total, va, held, n, devices).Sound?
    ensures n <= |held| && D.Covered(r.maps, va, Total(held[..n]))
  {
    assert OpenOverlay(Seal);
    assert forall b <- held[..n] :: b in held;
    forall x: nat {:trigger D.IsMapped(r.maps, x)} | va <= x < va + Total(held[..n])
      ensures D.IsMapped(r.maps, x)
    {
      BlockMapsCover(va, va, held[..n], x);
      var v :| D.Holds(BlockMaps(va, va, held[..n]), v, x);
      assert D.Holds(r.maps, v, x);
    }
  }

  // ---- all allocations together ------------------------------------------------------------------------

  /** One record per live allocation. */
  datatype Allocation = Allocation(va_base: nat, va_size: nat, requested_size: nat, blocks: seq<PhysicalBlock>)

  type Allocations = map<nat, Allocation>

  ghost function Handles(maps: D.Maps): set<nat> {
    set v | v in maps :: maps[v].handle
  }

  ghost predicate RecordOk(r: Part, va: nat, a: Allocation) {
    && va > 0 && a.va_base == va && a.va_size == Total(a.blocks) && a.va_size > 0
    && va in r.reserved && r.reserved[va] == a.va_size
    && Positive(a.blocks) && Distinct(a.blocks)
    && MapsIn(r.maps, va) == BlockMaps(va, va, a.blocks)
  }

  ghost predicate RecordsOk(r: Part, allocs: Allocations) {
    && r.reserved.Keys == allocs.Keys
    && (forall va <- allocs :: RecordOk(r, va, allocs[va]))
    && (forall v <- r.maps :: r.maps[v].region in allocs)
  }

  ghost predicate HandlesMapped(used: map<nat, nat>, maps: D.Maps) {
    forall h <- used :: h in Handles(maps)
  }

  ghost predicate MapsUsed(used: map<nat, nat>, maps: D.Maps) {
    forall v <- maps :: maps[v].handle in used && used[maps[v].handle] == maps[v].size
  }

  ghost predicate MappedOnce(maps: D.Maps) {
    forall v, w :: v in maps && w in maps && v < w ==> maps[v].handle != maps[w].handle
  }

  /** The blocks in use are exactly the mapped ones, each mapped once. */
  ghost predicate UsedOk(r: Part) {
    r.access.Keys == r.maps.Keys && HandlesMapped(r.used, r.maps) && MapsUsed(r.used, r.maps) && MappedOnce(r.maps)
  }

  ghost predicate OpenRecords(s: Seal) {
    true
  }

  ghost predicate OpenUsed(s: Seal) {
    true
  }

  ghost function Records(r: Part, allocs: Allocations): Verdict {
    if forall s {:trigger OpenRecords(s)} :: OpenRecords(s) ==> RecordsOk(r, allocs) then Sound else Broken
  }

  ghost function Used(r: Part): Verdict {
    if forall s {:trigger OpenUsed(s)} :: OpenUsed(s) ==> UsedOk(r) then Sound else Broken
  }

  /** Every mapping grants access to exactly these devices; a peer being added has been granted
      access to the allocations in done. */
  ghost predicate GrantsOk(r: Part, devices: set<int>, done: set<nat>, peer: set<int>) {
    forall v <- r.maps :: v in r.access && r.access[v] == devices + if r.maps[v].region in done then peer else {}
  }

  ghost predicate OpenGrants(s: Seal) {
    true
  }

  ghost function Grants(r: Part, devices: set<int>, done: set<nat>, peer: set<int>): Verdict {
    if forall s {:trigger OpenGrants(s)} :: OpenGrants(s) ==> GrantsOk(r, devices, done, peer) then Sound else Broken
  }

  // ---- recording a finished allocation -------------------------------------------------------------------

  lemma NewAllocation(r0: Part, allocs: Allocations, va: nat)
    requires Records(r0, allocs).Sound? && Used(r0).Sound? && va !in r0.reserved
    ensures va !in allocs && (forall v <- r0.maps :: r0.maps[v].region != va) && r0.access.Keys == r0.maps.Keys
  {
    assert OpenRecords(Seal) && OpenUsed(Seal);
  }

  lemma OthersApartFrom(maps0: D.Maps, bm: D.Maps, va: nat, w: nat)
    requires w != va && forall v <- bm :: bm[v].region == va
    requires DisjointMaps(maps0, bm)
    ensures MapsIn(maps0 + bm, w) == MapsIn(maps0, w)
  {
  }

  lemma OnlyNew(maps0: D.Maps, bm: D.Maps, va: nat)
    requires (forall v <- maps0 :: maps0[v].region != va) && (forall v <- bm :: bm[v].region == va)
    ensures MapsIn(maps0 + bm, va) == bm
  {
  }

  lemma OverlayRecord(r0: Part, r: Part, va: nat, a: Allocation, devices: set<int>)
    requires Overlay(r0, r, va, a.va_size, va, a.blocks, |a.blocks|, devices).Sound?
    requires a.va_base == va && a.va_size == Total(a.blocks) && a.va_size > 0
    ensures RecordOk(r, va, a) && va !in r0.reserved && r.reserved == r0.reserved[va := a.va_size]
    ensures forall w :: w != va ==> MapsIn(r.maps, w) == MapsIn(r0.maps, w)
    ensures forall v <- r.maps :: (v in r0.maps && r.maps[v] == r0.maps[v]) || r.maps[v].region == va
  {
    assert OpenOverlay(Seal);
    assert a.blocks[..|a.blocks|] == a.blocks;
    BlockMapsRange(va, va, a.blocks);
    OnlyNew(r0.maps, BlockMaps(va, va, a.blocks), va);
    forall w | w != va
      ensures MapsIn(r.maps, w) == MapsIn(r0.maps, w)
    {
      OthersApartFrom(r0.maps, BlockMaps(va, va, a.blocks), va, w);
    }
  }

  lemma RecordAdded(r0: Part, r: Part, allocs: Allocations, va: nat, a: Allocation, devices: set<int>)
    requires Records(r0, allocs).Sound? && Overlay(r0, r, va, a.va_size, va, a.blocks, |a.blocks|, devices).Sound?
    requires a.va_base == va && a.va_size == Total(a.blocks) && a.va_size > 0
    ensures Records(r, allocs[va := a]).Sound? && va !in allocs
  {
    assert OpenRecords(Seal);
    OverlayRecord(r0, r, va, a, devices);
    forall w | w in allocs
      ensures w != va && RecordOk(r, w, allocs[w])
    {
    }
  }

  lemma {:induction false} BlockMapsHandles(region: nat, at: nat, blocks: seq<PhysicalBlock>)
    requires Positive(blocks)
    ensures HandlesMapped(Uses(blocks), BlockMaps(region, at, blocks))
    decreases |blocks|
  {
    var m := BlockMaps(region, at, blocks);
    forall h | h in Uses(blocks)
      ensures h in Handles(m)
    {
      var rest := blocks[1..];
      assert forall b <- rest :: b in blocks;
      BlockMapsFirst(region, at, blocks);
      if h == blocks[0].handle {
        assert m[at].handle == h;
      } else {
        BlockMapsHandles(region, at + blocks[0].size, rest);
        var n := BlockMaps(region, at + blocks[0].size, rest);
        assert h in Handles(n);
        var v :| v in n && n[v].handle == h;
        assert v in m && m[v] == n[v];
      }
    }
  }

  lemma {:induction false} BlockMapsUse(region: nat, at: nat, blocks: seq<PhysicalBlock>)
    requires Positive(blocks) && Distinct(blocks)
    ensures MapsUsed(Uses(blocks), BlockMaps(region, at, blocks))
    decreases |blocks|
  {
    if blocks != [] {
      assert forall b <- blocks[1..] :: b in blocks;
      BlockMapsUse(region, at + blocks[0].size, blocks[1..]);
      UsesFirst(blocks);
      BlockMapsFirst(region, at, blocks);
    }
  }

  lemma {:induction false} BlockMapsOnce(region: nat, at: nat, blocks: seq<PhysicalBlock>)
    requires Positive(blocks) && Distinct(blocks)
    ensures MappedOnce(BlockMaps(region, at, blocks))
    decreases |blocks|
  {
    if blocks != [] {
      assert forall b <- blocks[1..] :: b in blocks;
      BlockMapsOnce(region, at + blocks[0].size, blocks[1..]);
      BlockMapsUse(region, at + blocks[0].size, blocks[1..]);
      UsesOf(blocks[1..], blocks[0].handle);
      BlockMapsFirst(region, at, blocks);
    }
  }

  lemma UnionHandles(maps0: D.Maps, used0: map<nat, nat>, bm: D.Maps, uses: map<nat, nat>)
    requires DisjointMaps(maps0, bm) && HandlesMapped(used0, maps0) && HandlesMapped(uses, bm)
    ensures HandlesMapped(used0 + uses, maps0 + bm)
  {
    forall h | h in used0 + uses
      ensures h in Handles(maps0 + bm)
    {
      if h in uses {
        assert h in Handles(bm);
        var v :| v in bm && bm[v].handle == h;
        assert (maps0 + bm)[v].handle == h;
      } else {
        assert h in Handles(maps0);
        var v :| v in maps0 && maps0[v].handle == h;
        assert (maps0 + bm)[v].handle == h;
      }
    }
  }

  lemma UnionUsed(maps0: D.Maps, used0: map<nat, nat>, bm: D.Maps, uses: map<nat, nat>)
    requires DisjointMaps(maps0, bm) && MapsUsed(used0, maps0) && MapsUsed(uses, bm) && forall h <- uses :: h !in used0
    ensures MapsUsed(used0 + uses, maps0 + bm)
  {
  }

  lemma UnionOnce(maps0: D.Maps, used0: map<nat, nat>, bm: D.Maps, uses: map<nat, nat>)
    requires DisjointMaps(maps0, bm) && MapsUsed(used0, maps0) && MapsUsed(uses, bm) && forall h <- uses :: h !in used0
    requires MappedOnce(maps0) && MappedOnce(bm)
    ensures MappedOnce(maps0 + bm)
  {
  }

  lemma FreshUses(used0: map<nat, nat>, blocks: seq<PhysicalBlock>)
    requires FreshBlocks(used0, blocks)
    ensures forall h <- Uses(blocks) :: h !in used0
  {
    forall h | h in Uses(blocks)
      ensures h !in used0
    {
      UsesOf(blocks, h);
    }
  }

  lemma OverlayWhole(r0: Part, r: Part, va: nat, total: nat, blocks: seq<PhysicalBlock>, devices: set<int>)
    requires Overlay(r0, r, va, total, va, blocks, |blocks|, devices).Sound?
    ensures r.maps == r0.maps + BlockMaps(va, va, blocks) && DisjointMaps(r0.maps, BlockMaps(va, va, blocks))
    ensures r.used == r0.used + Uses(blocks) && FreshBlocks(r0.used, blocks)
    ensures r.access.Keys == r.maps.Keys
  {
    assert OpenOverlay(Seal);
    assert blocks[..|blocks|] == blocks;
  }

  lemma UsedAdded(r0: Part, r: Part, va: nat, total: nat, blocks: seq<PhysicalBlock>, devices: set<int>)
    requires Used(r0).Sound? && Overlay(r0, r, va, total, va, blocks, |blocks|, devices).Sound?
    ensures Used(r).Sound?
  {
    OverlayWhole(r0, r, va, total, blocks, devices);
    assert OpenUsed(Seal);
    FreshUses(r0.used, blocks);
    BlockMapsHandles(va, va, blocks);
    BlockMapsUse(va, va, blocks);
    BlockMapsOnce(va, va, blocks);
    UnionHandles(r0.maps, r0.used, BlockMaps(va, va, blocks), Uses(blocks));
    UnionUsed(r0.maps, r0.used, BlockMaps(va, va, blocks), Uses(blocks));
    UnionOnce(r0.maps, r0.used, BlockMaps(va, va, blocks), Uses(blocks));
  }

  lemma AccessAdded(r0: Part, r: Part, va: nat, total: nat, blocks: seq<PhysicalBlock>, devices: set<int>)
    requires Grants(r0, devices, {}, {}).Sound? && Overlay(r0, r, va, total, va, blocks, |blocks|, devices).Sound?
    ensures Grants(r, devices, {}, {}).Sound?
  {
    assert OpenGrants(Seal) && OpenOverlay(Seal);
  }

  // ---- taking an allocation out --------------------------------------------------------------------------------

  /** The part without allocation va. */
  ghost function Without(r: Part, va: nat, a: Allocation): Part {
    Part(r.reserved - {va}, MapsOut(r.maps, va), AccessOf(r.access, MapsOut(r.maps, va)), r.used - Uses(a.blocks).Keys)
  }

  lemma MapsInOut(maps: D.Maps, va: nat, w: nat)
    requires va != w
    ensures MapsIn(MapsOut(maps, va), w) == MapsIn(maps, w)
  {
  }

  lemma WithoutRecords(r: Part, allocs: Allocations, va: nat)
    requires Records(r, allocs).Sound? && va in allocs
    ensures Records(Without(r, va, allocs[va]), allocs - {va}).Sound?
  {
    assert OpenRecords(Seal);
    var r0 := Without(r, va, allocs[va]);
    forall w | w in allocs - {va}
      ensures RecordOk(r0, w, allocs[w])
    {
      MapsInOut(r.maps, va, w);
    }
  }

  /** A handle is used by allocation va exactly when it is mapped in its reservation. */
  lemma UsesOfRecord(r: Part, va: nat, a: Allocation, v: nat)
    requires MappedOnce(r.maps) && RecordOk(r, va, a) && v in r.maps
    ensures r.maps[v].handle in Uses(a.blocks) <==> r.maps[v].region == va
  {
    BlockMapsUse(va, va, a.blocks);
    BlockMapsHandles(va, va, a.blocks);
    var bm := BlockMaps(va, va, a.blocks);
    if r.maps[v].region == va {
      assert v in MapsIn(r.maps, va) && bm[v] == r.maps[v];
    }
    if r.maps[v].handle in Uses(a.blocks) {
      assert r.maps[v].handle in Handles(bm);
      var w :| w in bm && bm[w].handle == r.maps[v].handle;
      assert w in MapsIn(r.maps, va) && r.maps[w] == bm[w];
      assert w < v || w == v || v < w;
      assert r.maps[w].region == va;
    }
  }

  lemma WithoutMapsUsed(r: Part, va: nat, a: Allocation)
    requires MapsUsed(r.used, r.maps) && MappedOnce(r.maps) && RecordOk(r, va, a)
    ensures MapsUsed(r.used - Uses(a.blocks).Keys, MapsOut(r.maps, va)) && MappedOnce(MapsOut(r.maps, va))
  {
    forall v | v in MapsOut(r.maps, va)
      ensures r.maps[v].handle !in Uses(a.blocks)
    {
      UsesOfRecord(r, va, a, v);
    }
  }

  lemma WithoutHandles(r: Part, va: nat, a: Allocation)
    requires HandlesMapped(r.used, r.maps) && MappedOnce(r.maps) && RecordOk(r, va, a)
    ensures HandlesMapped(r.used - Uses(a.blocks).Keys, MapsOut(r.maps, va))
  {
    forall h | h in r.used - Uses(a.blocks).Keys
      ensures h in Handles(MapsOut(r.maps, va))
    {
      assert h in Handles(r.maps);
      var v :| v in r.maps && r.maps[v].handle == h;
      UsesOfRecord(r, va, a, v);
      assert MapsOut(r.maps, va)[v].handle == h;
    }
  }

  lemma WithoutUsed(r: Part, va: nat, a: Allocation)
    requires Used(r).Sound? && RecordOk(r, va, a)
    ensures Used(Without(r, va, a)).Sound?
  {
    assert OpenUsed(Seal);
    WithoutMapsUsed(r, va, a);
    WithoutHandles(r, va, a);
    assert AccessOf(r.access, MapsOut(r.maps, va)).Keys == MapsOut(r.maps, va).Keys;
  }

  lemma WithoutAccess(r: Part, va: nat, a: Allocation, devices: set<int>)
    requires Grants(r, devices, {}, {}).Sound?
    ensures Grants(Without(r, va, a), devices, {}, {}).Sound?
  {
    assert OpenGrants(Seal);
  }

  lemma UsedSplit(r: Part, va: nat, a: Allocation)
    requires MapsUsed(r.used, r.maps) && RecordOk(r, va, a)
    ensures r.used == (r.used - Uses(a.blocks).Keys) + Uses(a.blocks)
    ensures FreshBlocks(r.used - Uses(a.blocks).Keys, a.blocks)
  {
    BlockMapsUse(va, va, a.blocks);
    BlockMapsHandles(va, va, a.blocks);
    var bm := BlockMaps(va, va, a.blocks);
    forall h | h in Uses(a.blocks)
      ensures h in r.used && r.used[h] == Uses(a.blocks)[h]
    {
      assert h in Handles(bm);
      var v :| v in bm && bm[v].handle == h;
      assert v in MapsIn(r.maps, va) && r.maps[v] == bm[v];
    }
    forall b | b in a.blocks
      ensures b.handle in Uses(a.blocks)
    {
      UsesOf(a.blocks, b.handle);
      var i :| 0 <= i < |a.blocks| && a.blocks[i] == b;
      assert a.blocks[i].handle == b.handle;
    }
  }

  lemma MapsSplit(maps: D.Maps, va: nat)
    ensures maps == MapsOut(maps, va) + MapsIn(maps, va) && DisjointMaps(MapsOut(maps, va), MapsIn(maps, va))
  {
  }

  lemma AccessSplit(access: map<nat, set<int>>, maps: D.Maps, va: nat, devices: set<int>)
    requires access.Keys == maps.Keys && forall v <- maps :: access[v] == devices
    ensures access == AccessOf(access, MapsOut(maps, va)) + AccessFor(MapsIn(maps, va), devices)
    ensures AccessOf(access, MapsOut(maps, va)).Keys == MapsOut(maps, va).Keys
  {
  }

  lemma RecordIsOverlay(r: Part, va: nat, a: Allocation, devices: set<int>)
    requires RecordOk(r, va, a) && MapsUsed(r.used, r.maps) && r.access.Keys == r.maps.Keys
    requires forall v <- r.maps :: r.access[v] == devices
    ensures Overlay(Without(r, va, a), r, va, a.va_size, va, a.blocks, |a.blocks|, devices).Sound?
  {
    assert a.blocks[..|a.blocks|] == a.blocks;
    UsedSplit(r, va, a);
    MapsSplit(r.maps, va);
    AccessSplit(r.access, r.maps, va, devices);
    assert r.reserved == (r.reserved - {va})[va := a.va_size];
  }

  /** A live allocation lies on top of everything else. */
  lemma LiveIsOverlay(r: Part, allocs: Allocations, va: nat, devices: set<int>)
    requires Records(r, allocs).Sound? && Used(r).Sound? && Grants(r, devices, {}, {}).Sound? && va in allocs
    ensures var a := allocs[va];
            && RecordOk(r, va, a)
            && Overlay(Without(r, va, a), r, va, a.va_size, va, a.blocks, |a.blocks|, devices).Sound?
  {
    assert OpenRecords(Seal) && OpenUsed(Seal) && OpenGrants(Seal);
    RecordIsOverlay(r, va, allocs[va], devices);
  }

  /** Taking out what was laid on top gives back what was there before. */
  lemma OverlayWithout(r0: Part, r: Part, va: nat, a: Allocation, devices: set<int>)
    requires Overlay(r0, r, va, a.va_size, va, a.blocks, |a.blocks|, devices).Sound?
    ensures Without(r, va, a) == r0
  {
    OverlayWhole(r0, r, va, a.va_size, a.blocks, devices);
    OverlayApart(r0, r, va, a.va_size, a.blocks, devices);
    var bm := BlockMaps(va, va, a.blocks);
    assert MapsOut(r0.maps + bm, va) == r0.maps;
    assert AccessOf(r.access, r0.maps) == r0.access;
    FreshUses(r0.used, a.blocks);
    assert r0.used + Uses(a.blocks) - Uses(a.blocks).Keys == r0.used;
  }

  lemma OverlayApart(r0: Part, r: Part, va: nat, total: nat, blocks: seq<PhysicalBlock>, devices: set<int>)
    requires Overlay(r0, r, va, total, va, blocks, |blocks|, devices).Sound?
    ensures r.reserved - {va} == r0.reserved && (forall v <- r0.maps :: r0.maps[v].region != va)
    ensures forall v <- BlockMaps(va, va, blocks) :: BlockMaps(va, va, blocks)[v].region == va
    ensures r0.access.Keys == r0.maps.Keys && forall v <- r0.maps :: v in r.access && r.access[v] == r0.access[v]
  {
    assert OpenOverlay(Seal);
    assert blocks[..|blocks|] == blocks;
    BlockMapsRange(va, va, blocks);
  }

  lemma MappingAccess(r: Part, devices: set<int>, v: nat)
    requires Grants(r, devices, {}, {}).Sound? && v in r.maps
    ensures v in r.access && r.access[v] == devices
  {
    assert OpenGrants(Seal);
  }

  // ---- adding a peer ------------------------------------------------------------------------------------------

  lemma RecordCovered(r: Part, va: nat, a: Allocation)
    requires RecordOk(r, va, a)
    ensures D.Covered(r.maps, va, a.va_size)
  {
    forall x: nat {:trigger D.IsMapped(r.maps, x)} | va <= x < va + a.va_size
      ensures D.IsMapped(r.maps, x)
    {
      BlockMapsCover(va, va, a.blocks, x);
      var v :| D.Holds(BlockMaps(va, va, a.blocks), v, x);
      assert v in MapsIn(r.maps, va) && D.Holds(r.maps, v, x);
    }
  }

  lemma PeerStart(r: Part, devices: set<int>, peer: set<int>)
    requires Grants(r, devices, {}, {}).Sound?
    ensures Grants(r, devices, {}, peer).Sound?
  {
    assert OpenGrants(Seal);
  }

  lemma PeerAdded(r: Part, allocs: Allocations, device: int, peers: seq<int>, peer: int)
    requires Records(r, allocs).Sound? && Grants(r, Devices(device, peers), allocs.Keys, {peer}).Sound?
    ensures Grants(r, Devices(device, peers + [peer]), {}, {}).Sound?
  {
    assert OpenRecords(Seal) && OpenGrants(Seal);
    assert Devices(device, peers + [peer]) == Devices(device, peers) + {peer};
  }

  /** Granting a peer access to the range of allocation va. */
  lemma GrantAllocation(r: Part, allocs: Allocations, va: nat, devices: set<int>, done: set<nat>, peer: set<int>)
    requires Records(r, allocs).Sound? && Used(r).Sound? && Grants(r, devices, done, peer).Sound? && va in allocs
    requires forall v <- r.maps :: va <= v < va + allocs[va].va_size ==> r.maps[v].region == va
    ensures var r' := r.(access := D.Grant(r.access, va, allocs[va].va_size, peer));
            Records(r', allocs).Sound? && Used(r').Sound? && Grants(r', devices, done + {va}, peer).Sound?
  {
    GrantKeepsRecords(r, allocs, D.Grant(r.access, va, allocs[va].va_size, peer));
    GrantKeepsUsed(r, D.Grant(r.access, va, allocs[va].va_size, peer));
    RangeIsRegion(r, allocs, va);
    GrantKeepsAccess(r, va, allocs[va].va_size, devices, done, peer);
  }

  lemma GrantKeepsRecord(r: Part, access': map<nat, set<int>>, w: nat, a: Allocation)
    requires RecordOk(r, w, a)
    ensures RecordOk(r.(access := access'), w, a)
  {
  }

  lemma GrantKeepsRecords(r: Part, allocs: Allocations, access': map<nat, set<int>>)
    requires Records(r, allocs).Sound?
    ensures Records(r.(access := access'), allocs).Sound?
  {
    assert OpenRecords(Seal);
    forall w | w in allocs
      ensures RecordOk(r.(access := access'), w, allocs[w])
    {
      GrantKeepsRecord(r, access', w, allocs[w]);
    }
  }

  lemma GrantKeepsUsed(r: Part, access': map<nat, set<int>>)
    requires Used(r).Sound? && access'.Keys == r.access.Keys
    ensures Used(r.(access := access')).Sound?
  {
    assert OpenUsed(Seal);
  }

  lemma RangeIsRegion(r: Part, allocs: Allocations, va: nat)
    requires Records(r, allocs).Sound? && va in allocs
    ensures forall v <- r.maps :: r.maps[v].region == va ==> va <= v < va + allocs[va].va_size
  {
    assert OpenRecords(Seal);
    assert RecordOk(r, va, allocs[va]);
    BlockMapsRange(va, va, allocs[va].blocks);
    forall v | v in r.maps && r.maps[v].region == va
      ensures va <= v < va + allocs[va].va_size
    {
      assert v in MapsIn(r.maps, va);
    }
  }

  lemma GrantKeepsAccess(r: Part, va: nat, size: nat, devices: set<int>, done: set<nat>, peer: set<int>)
    requires Grants(r, devices, done, peer).Sound?
    requires forall v <- r.maps :: va <= v < va + size <==> r.maps[v].region == va
    ensures Grants(r.(access := D.Grant(r.access, va, size, peer)), devices, done + {va}, peer).Sound?
  {
    assert OpenGrants(Seal);
  }
}

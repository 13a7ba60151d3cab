/** The ranges a SmallAllocator hands out: its free-list indexes, its allocated map and the
    high-water mark, against the tiling they stand for (csrc/small_allocator.cc). */
module Ranges {
  import opened Common
  import opened Sums
  import opened Tiling

  type SizeIndex = map<nat, set<nat>>

  // ---- the two free-list indexes ------------------------------------------------------------

  /** free_by_size is the exact inverse of free_by_addr, with no empty bucket. */
  ghost predicate Inverse(by_addr: map<nat, nat>, by_size: SizeIndex) {
    && (forall s <- by_size :: by_size[s] != {})
    && (forall s, a :: s in by_size && a in by_size[s] ==> a in by_addr && by_addr[a] == s)
    && (forall a <- by_addr :: by_addr[a] in by_size && a in by_size[by_addr[a]])
  }

  ghost function Index(by_addr: map<nat, nat>, by_size: SizeIndex): Verdict {
    if forall s {:trigger Open(s)} :: Open(s) ==> Inverse(by_addr, by_size) then Sound else Broken
  }

  /** free_by_size_[size].insert(va) */
  function Insert(by_size: SizeIndex, va: nat, size: nat): SizeIndex {
    by_size[size := (if size in by_size then by_size[size] else {}) + {va}]
  }

  lemma InsertKeepsIndex(by_addr: map<nat, nat>, by_size: SizeIndex, va: nat, size: nat)
    requires Index(by_addr, by_size).Sound? && va !in by_addr
    ensures Index(by_addr[va := size], Insert(by_size, va, size)).Sound?
  {
    assert Open(Seal);
  }

  lemma EraseKeepsIndex(by_addr: map<nat, nat>, by_size: SizeIndex, va: nat)
    requires Index(by_addr, by_size).Sound? && va in by_addr
    ensures var size := by_addr[va];
            && size in by_size
            && Index(by_addr - {va}, if by_size[size] == {va} then by_size - {size}
                                     else by_size[size := by_size[size] - {va}]).Sound?
  {
    assert Open(Seal);
    var size := by_addr[va];
    assert by_size[size] - {va} == {} ==> by_size[size] == {va};
  }

  /** The size index holds no information of its own: the free list determines it. */
  lemma IndexDetermined(by_addr: map<nat, nat>, by_size: SizeIndex, by_size': SizeIndex)
    requires Index(by_addr, by_size).Sound? && Index(by_addr, by_size').Sound?
    ensures by_size == by_size'
  {
    assert Open(Seal);
    forall s | s in by_size
      ensures s in by_size' && by_size[s] == by_size'[s]
    {
      var a :| a in by_size[s];
      assert by_addr[a] == s;
      assert forall c :: c in by_size[s] <==> c in by_addr && by_addr[c] == s;
      assert forall c :: c in by_size'[s] <==> c in by_addr && by_addr[c] == s;
    }
    forall s | s in by_size'
      ensures s in by_size
    {
      var a :| a in by_size'[s];
      assert by_addr[a] == s;
    }
  }

  // ---- the simple scan the size index stands for -----------------------------------------------

  /** b is the smallest free block of at least size bytes, and the lowest among those. */
  ghost predicate BestFit(free: map<nat, nat>, size: nat, b: nat) {
    && b in free && free[b] >= size
    && forall c <- free :: free[c] >= size ==> free[b] < free[c] || (free[b] == free[c] && b <= c)
  }

  ghost predicate NoneFits(free: map<nat, nat>, size: nat) {
    forall c <- free :: free[c] < size
  }

  /** The lowest address in the smallest sufficient bucket is the best fit. */
  lemma BucketIsBestFit(by_addr: map<nat, nat>, by_size: SizeIndex, size: nat, s: nat, b: nat)
    requires Index(by_addr, by_size).Sound?
    requires s in by_size && s >= size && forall k <- by_size :: k >= size ==> s <= k
    requires b in by_size[s] && forall c <- by_size[s] :: b <= c
    ensures BestFit(by_addr, size, b) && by_addr[b] == s
  {
    assert Open(Seal);
  }

  lemma NoBucketFits(by_addr: map<nat, nat>, by_size: SizeIndex, size: nat)
    requires Index(by_addr, by_size).Sound? && forall k <- by_size :: k < size
    ensures NoneFits(by_addr, size)
  {
    assert Open(Seal);
  }

  lemma BucketNotEmpty(by_addr: map<nat, nat>, by_size: SizeIndex, s: nat)
    requires Index(by_addr, by_size).Sound? && s in by_size
    ensures by_size[s] != {}
  {
    assert Open(Seal);
  }

  // ---- the ranges and their tiling ----------------------------------------------------------------

  /** The range fields of a SmallAllocator as one value; tiles says what each range is. */
  datatype View = View(base: nat, size: nat, high_water: nat, free_by_addr: map<nat, nat>,
                       allocated_: map<nat, nat>, allocated_bytes: int, tiles: Tiles)

  /** Three seals, so that opening one part of the invariant leaves the others shut. */
  ghost predicate OpenShape(s: Seal) {
    true
  }

  ghost predicate OpenGrid(s: Seal) {
    true
  }

  ghost predicate OpenBooks(s: Seal) {
    true
  }

  /** The tiles cover [lo, hi) exactly, and no two free ones touch. */
  ghost function Shape(t: Tiles, lo: nat, hi: nat): Verdict {
    if forall s {:trigger OpenShape(s)} :: OpenShape(s) ==> Tiled(t, lo, hi) && Canonical(t) then Sound else Broken
  }

  /** Every boundary is a multiple of 512. */
  ghost function Grid(t: Tiles, hi: nat): Verdict {
    if forall s {:trigger OpenGrid(s)} :: OpenGrid(s) ==> Aligned(t) && hi % ALIGN == 0 then Sound else Broken
  }

  /** The fields record what the tiles say. */
  ghost function Books(t: Tiles, free_by_addr: map<nat, nat>, allocated_: map<nat, nat>, bytes: int): Verdict {
    if forall s {:trigger OpenBooks(s)} :: OpenBooks(s) ==>
       FreeOf(t) == free_by_addr && LiveOf(t) == allocated_ && bytes == Sum(allocated_)
    then Sound else Broken
  }

  ghost predicate Audited(r: View) {
    && Shape(r.tiles, r.base, r.base + r.high_water).Sound?
    && Grid(r.tiles, r.base + r.high_water).Sound?
    && Books(r.tiles, r.free_by_addr, r.allocated_, r.allocated_bytes).Sound?
    && r.high_water <= r.size && r.base > 0
  }

  lemma FreeTile(r: View, b: nat)
    requires Audited(r) && b in r.free_by_addr
    ensures b in r.tiles && r.tiles[b] == Tile(Free, r.free_by_addr[b]) && b !in r.allocated_
    ensures r.free_by_addr[b] > 0 && r.base <= b && b + r.free_by_addr[b] <= r.base + r.high_water
  {
    assert OpenShape(Seal) && OpenBooks(Seal);
    assert b in FreeOf(r.tiles) && FreeOf(r.tiles)[b] == r.tiles[b].size;
    assert b !in LiveOf(r.tiles);
  }

  lemma LiveTile(r: View, b: nat)
    requires Audited(r) && b in r.allocated_
    ensures b in r.tiles && r.tiles[b] == Tile(Live, r.allocated_[b]) && b !in r.free_by_addr
    ensures 0 < r.allocated_[b] && r.base <= b && b + r.allocated_[b] <= r.base + r.high_water
    ensures b % ALIGN == 0
  {
    assert OpenShape(Seal) && OpenGrid(Seal) && OpenBooks(Seal);
    assert b in LiveOf(r.tiles) && LiveOf(r.tiles)[b] == r.tiles[b].size;
    assert b !in FreeOf(r.tiles);
  }

  // ---- splitting a free block ---------------------------------------------------------------------

  /** The free list once sz bytes are taken off the front of block b. */
  ghost function Shortened(free_by_addr: map<nat, nat>, b: nat, sz: nat): map<nat, nat>
    requires b in free_by_addr && sz <= free_by_addr[b]
  {
    if sz < free_by_addr[b] then (free_by_addr - {b})[b + sz := free_by_addr[b] - sz] else free_by_addr - {b}
  }

  /** The range taken counts as abandoned until its pages are mapped. */
  ghost function Split(r: View, b: nat, sz: nat): View
    requires b in r.free_by_addr && sz <= r.free_by_addr[b] && b in r.tiles && sz <= r.tiles[b].size
  {
    r.(free_by_addr := Shortened(r.free_by_addr, b, sz), tiles := Carve(r.tiles, b, Tile(Abandoned, sz)))
  }

  lemma SplitShape(t: Tiles, lo: nat, hi: nat, b: nat, sz: nat)
    requires Shape(t, lo, hi).Sound? && b in t && t[b].kind.Free? && 0 < sz <= t[b].size
    ensures Shape(Carve(t, b, Tile(Abandoned, sz)), lo, hi).Sound?
    ensures KeptOf(Carve(t, b, Tile(Abandoned, sz))) == KeptOf(t)[b := sz]
    ensures sz < t[b].size ==> b + sz !in t
  {
    assert OpenShape(Seal);
    CarveKeepsTiling(t, lo, hi, b, Tile(Abandoned, sz));
  }

  lemma SplitGrid(t: Tiles, hi: nat, b: nat, sz: nat)
    requires Grid(t, hi).Sound? && b in t && sz <= t[b].size && sz % ALIGN == 0
    ensures Grid(Carve(t, b, Tile(Abandoned, sz)), hi).Sound?
  {
    assert OpenGrid(Seal);
    CarveAligned(t, b, Tile(Abandoned, sz));
  }

  lemma SplitBooks(r: View, b: nat, sz: nat)
    requires Books(r.tiles, r.free_by_addr, r.allocated_, r.allocated_bytes).Sound?
    requires b in r.tiles && r.tiles[b].kind.Free? && 0 < sz <= r.tiles[b].size
    requires sz < r.tiles[b].size ==> b + sz !in r.tiles
    ensures b in r.free_by_addr && r.free_by_addr[b] == r.tiles[b].size && (sz < r.tiles[b].size ==> b + sz !in r.free_by_addr)
    ensures Books(Carve(r.tiles, b, Tile(Abandoned, sz)), Shortened(r.free_by_addr, b, sz), r.allocated_, r.allocated_bytes).Sound?
  {
    assert OpenBooks(Seal);
  }

  lemma SplitSound(r: View, b: nat, sz: nat)
    requires Audited(r) && b in r.free_by_addr && 0 < sz <= r.free_by_addr[b] && sz % ALIGN == 0
    ensures b in r.tiles && r.tiles[b] == Tile(Free, r.free_by_addr[b]) && b !in r.allocated_
    ensures sz < r.free_by_addr[b] ==> b + sz !in r.free_by_addr
    ensures r.base <= b && b + sz <= r.base + r.size
    ensures Audited(Split(r, b, sz))
    ensures KeptOf(Split(r, b, sz).tiles) == KeptOf(r.tiles)[b := sz]
  {
    FreeTile(r, b);
    SplitShape(r.tiles, r.base, r.base + r.high_water, b, sz);
    SplitGrid(r.tiles, r.base + r.high_water, b, sz);
    SplitBooks(r, b, sz);
  }

  // ---- bumping the high-water mark --------------------------------------------------------------------

  ghost function Bump(r: View, sz: nat): View {
    r.(high_water := r.high_water + sz, tiles := r.tiles[r.base + r.high_water := Tile(Abandoned, sz)])
  }

  lemma BumpShape(t: Tiles, lo: nat, hi: nat, sz: nat)
    requires Shape(t, lo, hi).Sound? && 0 < sz
    ensures hi !in t && Shape(t[hi := Tile(Abandoned, sz)], lo, hi + sz).Sound?
    ensures KeptOf(t[hi := Tile(Abandoned, sz)]) == KeptOf(t)[hi := sz]
  {
    assert OpenShape(Seal);
    ExtendKeepsTiling(t, lo, hi, Tile(Abandoned, sz));
  }

  lemma BumpGrid(t: Tiles, hi: nat, sz: nat)
    requires Grid(t, hi).Sound? && sz % ALIGN == 0
    ensures Grid(t[hi := Tile(Abandoned, sz)], hi + sz).Sound?
  {
    assert OpenGrid(Seal);
  }

  lemma BumpBooks(r: View, hi: nat, sz: nat)
    requires Books(r.tiles, r.free_by_addr, r.allocated_, r.allocated_bytes).Sound? && hi !in r.tiles
    ensures Books(r.tiles[hi := Tile(Abandoned, sz)], r.free_by_addr, r.allocated_, r.allocated_bytes).Sound?
    ensures hi !in r.allocated_
  {
    assert OpenBooks(Seal);
    var u := r.tiles[hi := Tile(Abandoned, sz)];
    assert FreeOf(u) == FreeOf(r.tiles) && LiveOf(u) == LiveOf(r.tiles);
    assert hi !in LiveOf(r.tiles);
  }

  lemma BumpSound(r: View, sz: nat)
    requires Audited(r) && 0 < sz && sz % ALIGN == 0 && r.high_water + sz <= r.size
    ensures Audited(Bump(r, sz)) && r.base + r.high_water !in r.tiles
    ensures KeptOf(Bump(r, sz).tiles) == KeptOf(r.tiles)[r.base + r.high_water := sz]
    ensures r.base + r.high_water !in r.allocated_
  {
    BumpShape(r.tiles, r.base, r.base + r.high_water, sz);
    BumpGrid(r.tiles, r.base + r.high_water, sz);
    BumpBooks(r, r.base + r.high_water, sz);
  }

  // ---- recording and forgetting an allocation -----------------------------------------------------------

  ghost function Relabel(t: Tiles, b: nat, kind: Kind): Tiles
    requires b in t
  {
    t[b := Tile(kind, t[b].size)]
  }

  ghost function Adopt(r: View, b: nat): View
    requires b in r.tiles
  {
    r.(allocated_ := r.allocated_[b := r.tiles[b].size], allocated_bytes := r.allocated_bytes + r.tiles[b].size,
       tiles := Relabel(r.tiles, b, Live))
  }

  ghost function Forget(r: View, b: nat): View
    requires b in r.allocated_ && b in r.tiles
  {
    r.(allocated_ := r.allocated_ - {b}, allocated_bytes := r.allocated_bytes - r.allocated_[b],
       tiles := Relabel(r.tiles, b, Abandoned))
  }

  lemma RelabelTiled(t: Tiles, lo: nat, hi: nat, b: nat, kind: Kind)
    requires Tiled(t, lo, hi) && b in t
    ensures Tiled(Relabel(t, b, kind), lo, hi)
  {
    var u := Relabel(t, b, kind);
    assert Bounded(u, lo, hi) && Disjoint(u);
    forall c {:trigger End(u, c)} | c in u
      ensures End(u, c) == hi || End(u, c) in u
    {
      assert End(u, c) == End(t, c);
    }
  }

  lemma RelabelCanonical(t: Tiles, b: nat, kind: Kind)
    requires Canonical(t) && b in t && !kind.Free?
    ensures Canonical(Relabel(t, b, kind))
  {
    var u := Relabel(t, b, kind);
    forall c {:trigger End(u, c)} | c in u && u[c].kind.Free? && End(u, c) in u
      ensures !u[End(u, c)].kind.Free?
    {
      assert End(u, c) == End(t, c);
    }
  }

  lemma RelabelShape(t: Tiles, lo: nat, hi: nat, b: nat, kind: Kind)
    requires Shape(t, lo, hi).Sound? && b in t && !t[b].kind.Free? && !kind.Free?
    ensures Shape(Relabel(t, b, kind), lo, hi).Sound? && KeptOf(Relabel(t, b, kind)) == KeptOf(t)
  {
    assert OpenShape(Seal);
    RelabelTiled(t, lo, hi, b, kind);
    RelabelCanonical(t, b, kind);
  }

  lemma RelabelGrid(t: Tiles, hi: nat, b: nat, kind: Kind)
    requires Grid(t, hi).Sound? && b in t
    ensures Grid(Relabel(t, b, kind), hi).Sound?
  {
    assert OpenGrid(Seal);
  }

  lemma AdoptBooks(r: View, b: nat)
    requires Books(r.tiles, r.free_by_addr, r.allocated_, r.allocated_bytes).Sound?
    requires b in r.tiles && r.tiles[b].kind.Abandoned?
    ensures Books(Relabel(r.tiles, b, Live), r.free_by_addr, r.allocated_[b := r.tiles[b].size], r.allocated_bytes + r.tiles[b].size).Sound?
    ensures b !in r.allocated_
  {
    assert OpenBooks(Seal);
    assert b !in LiveOf(r.tiles);
    SumInsert(r.allocated_, b, r.tiles[b].size);
  }

  lemma AdoptSound(r: View, b: nat)
    requires Audited(r) && b in r.tiles && r.tiles[b].kind.Abandoned?
    ensures Audited(Adopt(r, b)) && KeptOf(Adopt(r, b).tiles) == KeptOf(r.tiles) && b !in r.allocated_
  {
    RelabelShape(r.tiles, r.base, r.base + r.high_water, b, Live);
    RelabelGrid(r.tiles, r.base + r.high_water, b, Live);
    AdoptBooks(r, b);
  }

  lemma ForgetBooks(r: View, b: nat)
    requires Books(r.tiles, r.free_by_addr, r.allocated_, r.allocated_bytes).Sound?
    requires b in r.tiles && r.tiles[b].kind.Live? && b in r.allocated_
    ensures Books(Relabel(r.tiles, b, Abandoned), r.free_by_addr, r.allocated_ - {b}, r.allocated_bytes - r.allocated_[b]).Sound?
  {
    assert OpenBooks(Seal);
    SumRemove(r.allocated_, b);
  }

  lemma ForgetSound(r: View, b: nat)
    requires Audited(r) && b in r.allocated_
    ensures b in r.tiles && r.tiles[b] == Tile(Live, r.allocated_[b])
    ensures Audited(Forget(r, b)) && KeptOf(Forget(r, b).tiles) == KeptOf(r.tiles)
  {
    LiveTile(r, b);
    RelabelShape(r.tiles, r.base, r.base + r.high_water, b, Abandoned);
    RelabelGrid(r.tiles, r.base + r.high_water, b, Abandoned);
    ForgetBooks(r, b);
  }

  // ---- coalescing ------------------------------------------------------------------------------------

  /** The free block that ends at va, if there is one. */
  ghost predicate IsPredecessor(free: map<nat, nat>, va: nat, prev: Option<nat>) {
    match prev
    case None => forall c <- free :: c + free[c] != va
    case Some(c) => c in free && c + free[c] == va
  }

  /** The highest free block below va is the only one that can end at va. */
  lemma HighestBelow(r: View, va: nat, c: nat)
    requires Audited(r) && c in r.free_by_addr && c < va && forall k <- r.free_by_addr :: k < va ==> k <= c
    ensures IsPredecessor(r.free_by_addr, va, if c + r.free_by_addr[c] == va then Some(c) else None)
  {
    assert OpenShape(Seal) && OpenBooks(Seal);
    assert forall k <- r.free_by_addr :: k in r.tiles && r.free_by_addr[k] == r.tiles[k].size;
  }

  lemma NoneBelow(r: View, va: nat)
    requires Audited(r) && forall k <- r.free_by_addr :: k >= va
    ensures IsPredecessor(r.free_by_addr, va, None)
  {
    assert OpenShape(Seal) && OpenBooks(Seal);
    assert forall k <- r.free_by_addr :: k in r.tiles && r.free_by_addr[k] == r.tiles[k].size;
  }

  ghost function MergedStart(va: nat, prev: Option<nat>): nat {
    if prev.Some? then prev.value else va
  }

  ghost function MergedEnd(free: map<nat, nat>, end: nat): nat {
    if end in free then end + free[end] else end
  }

  /** The tiles inside [start, start + s) are range va and its free neighbours. */
  ghost predicate IsNeighbourhood(t: Tiles, hi: nat, free: map<nat, nat>, va: nat, start: nat, s: nat)
    requires va in t
  {
    && start in t && 0 < s && start <= va && va + t[va].size <= start + s
    && (start + s == hi || start + s in t)
    && (forall k <- t :: start <= k < start + s <==> k == va || k == start || (k == va + t[va].size && k in free))
    && (start != va ==> t[start].kind.Free?)
  }

  ghost predicate OpenNeighbourhood(s: Seal) {
    true
  }

  ghost function Neighbourhood(t: Tiles, hi: nat, va: nat, start: nat, s: nat): Verdict
    requires va in t
  {
    if forall k {:trigger OpenNeighbourhood(k)} :: OpenNeighbourhood(k) ==> IsNeighbourhood(t, hi, FreeOf(t), va, start, s)
    then Sound else Broken
  }

  lemma MergedTiles(t: Tiles, lo: nat, hi: nat, va: nat, prev: Option<nat>)
    requires Tiled(t, lo, hi) && va in t && !t[va].kind.Free? && IsPredecessor(FreeOf(t), va, prev)
    ensures var start, stop := MergedStart(va, prev), MergedEnd(FreeOf(t), va + t[va].size);
            stop >= start && IsNeighbourhood(t, hi, FreeOf(t), va, start, stop - start)
  {
    var end := End(t, va);
    var start, stop := MergedStart(va, prev), MergedEnd(FreeOf(t), end);
    if end in FreeOf(t) {
      assert End(t, end) == stop;
    }
    if prev.Some? {
      assert End(t, start) == va;
    }
    assert stop == hi || stop in t;
  }

  lemma MergedIsMaximal(t: Tiles, lo: nat, hi: nat, va: nat, prev: Option<nat>)
    requires Tiled(t, lo, hi) && Canonical(t)
    requires va in t && !t[va].kind.Free? && IsPredecessor(FreeOf(t), va, prev)
    ensures forall k :: k in t && k + t[k].size == MergedStart(va, prev) ==> !t[k].kind.Free?
    ensures var stop := MergedEnd(FreeOf(t), va + t[va].size); stop in t ==> !t[stop].kind.Free?
  {
    var end := End(t, va);
    var start := MergedStart(va, prev);
    forall k | k in t && k + t[k].size == start
      ensures !t[k].kind.Free?
    {
      assert End(t, k) == start;
      assert t[k].kind.Free? ==> k in FreeOf(t);
    }
    if end in FreeOf(t) {
      assert End(t, end) in t ==> !t[End(t, end)].kind.Free?;
    }
  }

  lemma MergedTiling(t: Tiles, lo: nat, hi: nat, va: nat, prev: Option<nat>, start: nat, s: nat)
    requires Tiled(t, lo, hi) && Canonical(t) && va in t && !t[va].kind.Free? && IsPredecessor(FreeOf(t), va, prev)
    requires start == MergedStart(va, prev) && start + s == MergedEnd(FreeOf(t), va + t[va].size)
    requires IsNeighbourhood(t, hi, FreeOf(t), va, start, s)
    ensures Tiled(Fuse(t, start, s), lo, hi) && Canonical(Fuse(t, start, s))
  {
    MergedIsMaximal(t, lo, hi, va, prev);
    FuseKeepsTiling(t, lo, hi, start, s);
    FuseCanonical(t, lo, hi, start, s);
  }

  lemma MergedShape(t: Tiles, lo: nat, hi: nat, va: nat, prev: Option<nat>, start: nat, s: nat)
    requires Shape(t, lo, hi).Sound? && va in t && t[va].kind.Abandoned? && IsPredecessor(FreeOf(t), va, prev)
    requires start == MergedStart(va, prev) && start + s == MergedEnd(FreeOf(t), va + t[va].size)
    ensures Neighbourhood(t, hi, va, start, s).Sound?
    ensures Shape(Fuse(t, start, s), lo, hi).Sound?
    ensures KeptOf(Fuse(t, start, s)) == KeptOf(t) - {va}
  {
    assert OpenShape(Seal);
    MergedTiles(t, lo, hi, va, prev);
    assert MergedEnd(FreeOf(t), va + t[va].size) - start == s;
    MergedTiling(t, lo, hi, va, prev, start, s);
    FuseKept(t, start, s, va);
  }

  lemma MergedGrid(t: Tiles, hi: nat, va: nat, start: nat, s: nat)
    requires Grid(t, hi).Sound? && va in t && Neighbourhood(t, hi, va, start, s).Sound?
    ensures Grid(Fuse(t, start, s), hi).Sound?
  {
    assert OpenNeighbourhood(Seal);
    assert OpenGrid(Seal);
    BetweenMultiples(start, s, ALIGN);
  }

  /** The free list after merging: the neighbours are gone, the merged block is in. */
  ghost function MergedFree(free: map<nat, nat>, end: nat, start: nat, s: nat): map<nat, nat> {
    (free - {start} - {end})[start := s]
  }

  lemma MergedBooks(r: View, hi: nat, va: nat, start: nat, s: nat)
    requires Books(r.tiles, r.free_by_addr, r.allocated_, r.allocated_bytes).Sound?
    requires va in r.tiles && Neighbourhood(r.tiles, hi, va, start, s).Sound? && r.tiles[va].kind.Abandoned?
    ensures Books(Fuse(r.tiles, start, s), MergedFree(r.free_by_addr, va + r.tiles[va].size, start, s),
                  r.allocated_, r.allocated_bytes).Sound?
  {
    assert OpenBooks(Seal) && OpenNeighbourhood(Seal);
  }

  lemma FreeIsFreeOf(r: View)
    requires Books(r.tiles, r.free_by_addr, r.allocated_, r.allocated_bytes).Sound?
    ensures r.free_by_addr == FreeOf(r.tiles) && r.allocated_ == LiveOf(r.tiles)
  {
    assert OpenBooks(Seal);
  }

  ghost function Merged(r: View, va: nat, start: nat, s: nat): View
    requires va in r.tiles
  {
    r.(free_by_addr := MergedFree(r.free_by_addr, va + r.tiles[va].size, start, s), tiles := Fuse(r.tiles, start, s))
  }

  /** Merging a freed range with its free neighbours keeps the ranges sound; the kept ranges lose
      exactly the freed one. */
  lemma MergedSound(r: View, va: nat, prev: Option<nat>, start: nat, s: nat, r': View)
    requires Audited(r) && va in r.tiles && r.tiles[va].kind.Abandoned? && IsPredecessor(r.free_by_addr, va, prev)
    requires start == MergedStart(va, prev) && start + s == MergedEnd(r.free_by_addr, va + r.tiles[va].size)
    requires r' == Merged(r, va, start, s)
    ensures Audited(r') && KeptOf(r'.tiles) == KeptOf(r.tiles) - {va}
  {
    FreeIsFreeOf(r);
    var hi := r.base + r.high_water;
    MergedParts(r, hi, va, prev, start, s, r'.tiles, r'.free_by_addr);
    assert r'.base + r'.high_water == hi;
  }

  lemma MergedParts(r: View, hi: nat, va: nat, prev: Option<nat>, start: nat, s: nat, t: Tiles, free: map<nat, nat>)
    requires Shape(r.tiles, r.base, hi).Sound? && Grid(r.tiles, hi).Sound?
    requires Books(r.tiles, r.free_by_addr, r.allocated_, r.allocated_bytes).Sound?
    requires va in r.tiles && r.tiles[va].kind.Abandoned? && IsPredecessor(FreeOf(r.tiles), va, prev)
    requires start == MergedStart(va, prev) && start + s == MergedEnd(FreeOf(r.tiles), va + r.tiles[va].size)
    requires t == Fuse(r.tiles, start, s) && free == MergedFree(r.free_by_addr, va + r.tiles[va].size, start, s)
    ensures Shape(t, r.base, hi).Sound? && Grid(t, hi).Sound? && Books(t, free, r.allocated_, r.allocated_bytes).Sound?
    ensures KeptOf(t) == KeptOf(r.tiles) - {va}
  {
    MergedShape(r.tiles, r.base, hi, va, prev, start, s);
    MergedGrid(r.tiles, hi, va, start, s);
    MergedBooks(r, hi, va, start, s);
  }

  // ---- what a history leaves behind --------------------------------------------------------------------

  ghost function AbandonedOf(t: Tiles): map<nat, nat> {
    map b | b in t && t[b].kind.Abandoned? :: t[b].size
  }

  /** Byte x lies in the range at b, recorded as this kind. */
  ghost predicate InRange(r: View, kind: Kind, b: nat, x: nat) {
    var ranges := match kind
                  case Live => r.allocated_
                  case Free => r.free_by_addr
                  case Abandoned => AbandonedOf(r.tiles);
    b in ranges && b <= x < b + ranges[b]
  }

  lemma RangeIsTile(r: View, kind: Kind, b: nat, x: nat)
    requires Audited(r)
    ensures InRange(r, kind, b, x) <==> b in r.tiles && r.tiles[b].kind == kind && b <= x < b + r.tiles[b].size
  {
    FreeIsFreeOf(r);
  }

  /** Every byte below the high-water mark lies in exactly one range, allocated, free or abandoned. */
  lemma RangesTile(r: View, x: nat)
    requires Audited(r) && r.base <= x < r.base + r.high_water
    ensures exists kind, b :: InRange(r, kind, b, x)
    ensures forall k, b, j, c :: InRange(r, k, b, x) && InRange(r, j, c, x) ==> k == j && b == c
  {
    TileAt(r.tiles, r.base, r.base + r.high_water, x);
    var d :| d in r.tiles && d <= x < d + r.tiles[d].size;
    RangeIsTile(r, r.tiles[d].kind, d, x);
    forall k, b, j, c | InRange(r, k, b, x) && InRange(r, j, c, x)
      ensures k == j && b == c
    {
      RangeIsTile(r, k, b, x);
      RangeIsTile(r, j, c, x);
    }
  }

  lemma TileAt(t: Tiles, lo: nat, hi: nat, x: nat)
    requires Shape(t, lo, hi).Sound? && lo <= x < hi
    ensures exists d :: d in t && d <= x < d + t[d].size
    ensures forall c, d :: c in t && d in t && c <= x < c + t[c].size && d <= x < d + t[d].size ==> c == d
  {
    assert OpenShape(Seal);
    ExactlyOneTile(t, lo, hi, x);
    var d :| d in t && d <= x < End(t, d);
    assert d in t && d <= x < d + t[d].size;
  }

  /** Every range is of positive size, on 512-byte boundaries, and inside the reservation. */
  lemma RangesAligned(r: View, b: nat, size: nat)
    requires Audited(r)
    requires (b in r.allocated_ && r.allocated_[b] == size) || (b in r.free_by_addr && r.free_by_addr[b] == size)
             || (b in AbandonedOf(r.tiles) && AbandonedOf(r.tiles)[b] == size)
    ensures size > 0 && b % ALIGN == 0 && size % ALIGN == 0 && r.base <= b && b + size <= r.base + r.size
  {
    FreeIsFreeOf(r);
    assert OpenShape(Seal) && OpenGrid(Seal);
    assert b in r.tiles && r.tiles[b].size == size;
  }

  /** The free list is exactly the set of maximal gaps of the allocated and abandoned ranges. */
  lemma FreeListIsGaps(r: View, b: nat, s: nat)
    requires Audited(r)
    ensures b in r.free_by_addr && r.free_by_addr[b] == s <==> IsMaximalGap(KeptOf(r.tiles), r.base, r.base + r.high_water, b, s)
  {
    FreeIsFreeOf(r);
    assert OpenShape(Seal);
    FreeListIsMaximalGaps(r.tiles, r.base, r.base + r.high_water, b, s);
  }

  lemma KeptIsUnion(t: Tiles, u: Tiles)
    requires LiveOf(t) == LiveOf(u) && AbandonedOf(t) == AbandonedOf(u)
    ensures KeptOf(t) == KeptOf(u)
  {
    forall b
      ensures b in KeptOf(t) <==> b in LiveOf(t) || b in AbandonedOf(t)
      ensures b in KeptOf(u) <==> b in LiveOf(u) || b in AbandonedOf(u)
    {
    }
    forall b | b in KeptOf(t)
      ensures b in KeptOf(u) && KeptOf(t)[b] == KeptOf(u)[b]
    {
      assert b in LiveOf(t) ==> KeptOf(t)[b] == LiveOf(t)[b] && KeptOf(u)[b] == LiveOf(u)[b];
      assert b in AbandonedOf(t) ==> KeptOf(t)[b] == AbandonedOf(t)[b] && KeptOf(u)[b] == AbandonedOf(u)[b];
    }
  }

  /** Two histories that reach the same allocated ranges, abandoned ranges and high-water mark have
      the same free list and the same size index. */
  lemma HistoryIndependent(r: View, by_size: SizeIndex, r': View, by_size': SizeIndex)
    requires Audited(r) && Audited(r') && Index(r.free_by_addr, by_size).Sound? && Index(r'.free_by_addr, by_size').Sound?
    requires r.base == r'.base && r.high_water == r'.high_water && r.allocated_ == r'.allocated_
    requires AbandonedOf(r.tiles) == AbandonedOf(r'.tiles)
    ensures r.free_by_addr == r'.free_by_addr && by_size == by_size'
  {
    FreeIsFreeOf(r);
    FreeIsFreeOf(r');
    KeptIsUnion(r.tiles, r'.tiles);
    SameFreeList(r.tiles, r'.tiles, r.base, r.base + r.high_water);
    IndexDetermined(r.free_by_addr, by_size, by_size');
  }

  lemma SameFreeList(t: Tiles, u: Tiles, lo: nat, hi: nat)
    requires Shape(t, lo, hi).Sound? && Shape(u, lo, hi).Sound? && KeptOf(t) == KeptOf(u)
    ensures FreeOf(t) == FreeOf(u)
  {
    assert OpenShape(Seal);
    FreeListDetermined(t, u, lo, hi);
  }

  /** With everything freed and nothing abandoned, one free block spans all that was ever used. */
  lemma OneBlockLeft(r: View)
    requires Audited(r) && r.allocated_ == map[] && AbandonedOf(r.tiles) == map[]
    ensures r.free_by_addr == if r.high_water == 0 then map[] else map[r.base := r.high_water]
  {
    FreeIsFreeOf(r);
    forall b | b in r.tiles
      ensures r.tiles[b].kind.Free?
    {
      assert b !in LiveOf(r.tiles) && b !in AbandonedOf(r.tiles);
    }
    assert KeptOf(r.tiles) == map[];
    assert OpenShape(Seal);
    EverythingFreed(r.tiles, r.base, r.base + r.high_water);
  }
}

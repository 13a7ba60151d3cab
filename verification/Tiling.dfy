/** How the range below the high-water mark is divided: a value-level theory of the small
    allocator's allocated ranges, free blocks and abandoned ranges (csrc/small_allocator.cc). */
module Tiling {
  import opened Common

  /** A range abandoned by an allocation whose pages could not be mapped is neither
      allocated nor free. */
  datatype Kind = Live | Free | Abandoned

  datatype Tile = Tile(kind: Kind, size: nat)

  type Tiles = map<nat, Tile>

  ghost function End(t: Tiles, b: nat): nat
    requires b in t
  {
    b + t[b].size
  }

  ghost predicate Bounded(t: Tiles, lo: nat, hi: nat) {
    forall b <- t :: lo <= b && b + t[b].size <= hi && 0 < t[b].size
  }

  ghost predicate Disjoint(t: Tiles) {
    forall b, c :: b in t && c in t && b < c ==> b + t[b].size <= c
  }

  /** Each tile ends where another begins, or at the upper end: there are no gaps. */
  ghost predicate Chained(t: Tiles, lo: nat, hi: nat) {
    && (forall b {:trigger End(t, b)} :: b in t ==> End(t, b) == hi || End(t, b) in t)
    && (lo < hi ==> lo in t)
  }

  ghost predicate Aligned(t: Tiles) {
    forall b <- t :: b % ALIGN == 0 && t[b].size % ALIGN == 0
  }

  /** The tiles cover [lo, hi) edge to edge, without overlap. */
  ghost predicate Tiled(t: Tiles, lo: nat, hi: nat) {
    && lo <= hi
    && Bounded(t, lo, hi)
    && Disjoint(t)
    && Chained(t, lo, hi)
  }

  /** No two free blocks touch. */
  ghost predicate Canonical(t: Tiles) {
    forall b {:trigger End(t, b)} :: b in t && t[b].kind.Free? && End(t, b) in t ==> !t[End(t, b)].kind.Free?
  }

  ghost function LiveOf(t: Tiles): map<nat, nat> {
    map b | b in t && t[b].kind.Live? :: t[b].size
  }

  ghost function FreeOf(t: Tiles): map<nat, nat> {
    map b | b in t && t[b].kind.Free? :: t[b].size
  }

  /** Everything that is not free: allocated and abandoned ranges. */
  ghost function KeptOf(t: Tiles): map<nat, nat> {
    map b | b in t && !t[b].kind.Free? :: t[b].size
  }

  // ---- walking the tiles ----------------------------------------------------------

  /** Some tile at or after c ends at x, when x starts a tile or is the upper end. */
  lemma {:induction false} EndingAt(t: Tiles, lo: nat, hi: nat, c: nat, x: nat) returns (d: nat)
    requires Tiled(t, lo, hi) && c in t && c < x && (x in t || x == hi)
    ensures d in t && End(t, d) == x
    decreases x - c
  {
    if End(t, c) == x {
      d := c;
    } else {
      d := EndingAt(t, lo, hi, End(t, c), x);
    }
  }

  lemma {:induction false} HoldingFrom(t: Tiles, lo: nat, hi: nat, c: nat, x: nat) returns (d: nat)
    requires Tiled(t, lo, hi) && c in t && c <= x < hi
    ensures d in t && d <= x < End(t, d)
    decreases x - c
  {
    if x < End(t, c) {
      d := c;
    } else {
      d := HoldingFrom(t, lo, hi, End(t, c), x);
    }
  }

  /** Every address below the high-water mark lies in exactly one tile. */
  lemma ExactlyOneTile(t: Tiles, lo: nat, hi: nat, x: nat)
    requires Tiled(t, lo, hi) && lo <= x < hi
    ensures exists d :: d in t && d <= x < End(t, d)
    ensures forall c, d :: c in t && d in t && c <= x < End(t, c) && d <= x < End(t, d) ==> c == d
  {
    var d := HoldingFrom(t, lo, hi, lo, x);
  }

  lemma NothingBeyond(t: Tiles, lo: nat, hi: nat)
    requires Bounded(t, lo, hi) && Chained(t, lo, hi)
    ensures lo >= hi ==> t == map[]
    ensures hi !in t
  {
    if t != map[] {
      var c :| c in t;
      assert lo < hi;
    }
  }

  // ---- carving a free block ---------------------------------------------------------

  /** Give the front of block b to tile; what is left over stays free. */
  ghost function Carve(t: Tiles, b: nat, tile: Tile): Tiles
    requires b in t && tile.size <= t[b].size
  {
    if tile.size < t[b].size
    then t[b := tile][b + tile.size := Tile(Free, t[b].size - tile.size)]
    else t[b := tile]
  }

  lemma CarveApart(t: Tiles, lo: nat, hi: nat, b: nat, tile: Tile)
    requires Bounded(t, lo, hi) && Disjoint(t) && b in t && 0 < tile.size <= t[b].size
    ensures Bounded(Carve(t, b, tile), lo, hi) && Disjoint(Carve(t, b, tile))
  {
  }

  lemma CarveChained(t: Tiles, lo: nat, hi: nat, b: nat, tile: Tile)
    requires Disjoint(t) && Chained(t, lo, hi) && b in t && 0 < tile.size <= t[b].size
    ensures Chained(Carve(t, b, tile), lo, hi)
  {
    var u := Carve(t, b, tile);
    forall c {:trigger End(u, c)} | c in u
      ensures End(u, c) == hi || End(u, c) in u
    {
      if c in t && c != b {
        assert End(u, c) == End(t, c);
      } else {
        assert End(t, b) == hi || End(t, b) in t;
      }
    }
  }

  lemma CarveAligned(t: Tiles, b: nat, tile: Tile)
    requires Aligned(t) && b in t && tile.size <= t[b].size && tile.size % ALIGN == 0
    ensures Aligned(Carve(t, b, tile))
  {
    assert (b + tile.size) % ALIGN == 0 && (t[b].size - tile.size) % ALIGN == 0;
  }

  lemma CarveCanonical(t: Tiles, lo: nat, hi: nat, b: nat, tile: Tile)
    requires Bounded(t, lo, hi) && Disjoint(t) && Canonical(t)
    requires b in t && t[b].kind.Free? && !tile.kind.Free? && 0 < tile.size <= t[b].size
    ensures Canonical(Carve(t, b, tile))
  {
    var u := Carve(t, b, tile);
    forall c {:trigger End(u, c)} | c in u && u[c].kind.Free? && End(u, c) in u
      ensures !u[End(u, c)].kind.Free?
    {
      if c in t {
        assert End(u, c) == End(t, c);
      } else {
        assert End(u, c) == End(t, b);
      }
    }
  }

  lemma CarveKept(t: Tiles, lo: nat, hi: nat, b: nat, tile: Tile)
    requires Disjoint(t) && b in t && t[b].kind.Free? && !tile.kind.Free? && 0 < tile.size <= t[b].size
    ensures KeptOf(Carve(t, b, tile)) == KeptOf(t)[b := tile.size]
  {
  }

  /** Splitting a free block keeps the tiling and the canonical form. */
  lemma CarveKeepsTiling(t: Tiles, lo: nat, hi: nat, b: nat, tile: Tile)
    requires Tiled(t, lo, hi) && Canonical(t)
    requires b in t && t[b].kind.Free? && !tile.kind.Free?
    requires 0 < tile.size <= t[b].size
    ensures Tiled(Carve(t, b, tile), lo, hi) && Canonical(Carve(t, b, tile))
    ensures KeptOf(Carve(t, b, tile)) == KeptOf(t)[b := tile.size]
  {
    CarveApart(t, lo, hi, b, tile);
    CarveChained(t, lo, hi, b, tile);
    CarveCanonical(t, lo, hi, b, tile);
    CarveKept(t, lo, hi, b, tile);
  }

  // ---- moving the high-water mark -----------------------------------------------------

  lemma ExtendChained(t: Tiles, lo: nat, hi: nat, tile: Tile)
    requires lo <= hi && Bounded(t, lo, hi) && Chained(t, lo, hi) && 0 < tile.size
    ensures Chained(t[hi := tile], lo, hi + tile.size)
  {
    var u := t[hi := tile];
    forall c {:trigger End(u, c)} | c in u
      ensures End(u, c) == hi + tile.size || End(u, c) in u
    {
      if c != hi {
        assert End(t, c) == hi || End(t, c) in t;
      }
    }
  }

  lemma ExtendCanonical(t: Tiles, lo: nat, hi: nat, tile: Tile)
    requires Bounded(t, lo, hi) && hi !in t && Canonical(t) && !tile.kind.Free?
    ensures Canonical(t[hi := tile])
  {
    var u := t[hi := tile];
    forall c {:trigger End(u, c)} | c in u && u[c].kind.Free? && End(u, c) in u
      ensures !u[End(u, c)].kind.Free?
    {
      assert End(u, c) == End(t, c);
    }
  }

  /** A bump allocation keeps the tiling and the canonical form. */
  lemma ExtendKeepsTiling(t: Tiles, lo: nat, hi: nat, tile: Tile)
    requires Tiled(t, lo, hi) && Canonical(t)
    requires 0 < tile.size && !tile.kind.Free?
    ensures hi !in t
    ensures Tiled(t[hi := tile], lo, hi + tile.size) && Canonical(t[hi := tile])
    ensures KeptOf(t[hi := tile]) == KeptOf(t)[hi := tile.size]
  {
    NothingBeyond(t, lo, hi);
    ExtendChained(t, lo, hi, tile);
    ExtendCanonical(t, lo, hi, tile);
  }

  // ---- freeing and merging ------------------------------------------------------------

  /** Replace all tiles inside [b, b + s) by one free block. */
  ghost function Fuse(t: Tiles, b: nat, s: nat): Tiles {
    (map k | k in t && !(b <= k < b + s) :: t[k])[b := Tile(Free, s)]
  }

  /** A tile outside [b, b + s) ends outside it, or where it begins. */
  lemma EndsOutside(t: Tiles, b: nat, s: nat, c: nat)
    requires Disjoint(t) && b in t && c in t && !(b <= c < b + s)
    ensures End(t, c) <= b || b + s <= End(t, c)
  {
  }

  lemma FuseChained(t: Tiles, lo: nat, hi: nat, b: nat, s: nat)
    requires Bounded(t, lo, hi) && Disjoint(t) && Chained(t, lo, hi)
    requires b in t && 0 < s && (b + s == hi || b + s in t)
    ensures Chained(Fuse(t, b, s), lo, hi)
  {
    var u := Fuse(t, b, s);
    forall c {:trigger End(u, c)} | c in u
      ensures End(u, c) == hi || End(u, c) in u
    {
      if c != b {
        EndsOutside(t, b, s, c);
        assert u[c] == t[c];
        assert End(t, c) == hi || End(t, c) in t;
      }
    }
  }

  lemma FuseKeepsTiling(t: Tiles, lo: nat, hi: nat, b: nat, s: nat)
    requires Tiled(t, lo, hi) && b in t && 0 < s
    requires b + s == hi || b + s in t
    ensures Tiled(Fuse(t, b, s), lo, hi)
  {
    assert Bounded(Fuse(t, b, s), lo, hi);
    FuseChained(t, lo, hi, b, s);
  }

  /** Fusing the neighbourhood of freed range v takes v, and nothing else, out of the kept ranges. */
  lemma FuseKept(t: Tiles, b: nat, s: nat, v: nat)
    requires b <= v < b + s && forall k <- t :: b <= k < b + s && !t[k].kind.Free? ==> k == v
    ensures KeptOf(Fuse(t, b, s)) == KeptOf(t) - {v}
  {
  }

  /** The fused block touches no free block when its old neighbours did not. */
  lemma FuseCanonical(t: Tiles, lo: nat, hi: nat, b: nat, s: nat)
    requires Bounded(t, lo, hi) && Disjoint(t) && Canonical(t) && b in t && 0 < s
    requires forall k :: k in t && k + t[k].size == b ==> !t[k].kind.Free?
    requires b + s in t ==> !t[b + s].kind.Free?
    ensures Canonical(Fuse(t, b, s))
  {
    var u := Fuse(t, b, s);
    forall c {:trigger End(u, c)} | c in u && u[c].kind.Free? && End(u, c) in u
      ensures !u[End(u, c)].kind.Free?
    {
      if c != b {
        assert End(u, c) == End(t, c);
      }
    }
  }

  // ---- the free list is canonical -------------------------------------------------------

  /** [b, b + s) is free of kept ranges and cannot be widened on either side. */
  ghost predicate IsMaximalGap(kept: map<nat, nat>, lo: nat, hi: nat, b: nat, s: nat) {
    && 0 < s && lo <= b && b + s <= hi
    && (forall k <- kept :: k + kept[k] <= b || b + s <= k)
    && (b == lo || exists k :: k in kept && k + kept[k] == b)
    && (b + s == hi || b + s in kept)
  }

  ghost predicate IsFreeBlock(t: Tiles, b: nat, s: nat) {
    b in FreeOf(t) && FreeOf(t)[b] == s
  }

  lemma FreeBlockIsMaximalGap(t: Tiles, lo: nat, hi: nat, b: nat)
    requires Tiled(t, lo, hi) && Canonical(t) && b in t && t[b].kind.Free?
    ensures IsMaximalGap(KeptOf(t), lo, hi, b, t[b].size)
  {
    var kept := KeptOf(t);
    if b != lo {
      var c := EndingAt(t, lo, hi, lo, b);
      assert c in kept && c + kept[c] == b;
    }
    assert End(t, b) == hi || End(t, b) in kept;
  }

  lemma MaximalGapIsFreeBlock(t: Tiles, lo: nat, hi: nat, b: nat, s: nat)
    requires Tiled(t, lo, hi) && Canonical(t) && IsMaximalGap(KeptOf(t), lo, hi, b, s)
    ensures b in t && t[b] == Tile(Free, s)
  {
    var kept := KeptOf(t);
    if b != lo {
      var k :| k in kept && k + kept[k] == b;
      assert End(t, k) == b;
    }
    assert b !in kept;
    assert b in t && t[b].kind.Free?;
    var e := End(t, b);
    assert e == hi || e in kept;
  }

  /** The free list is exactly the set of maximal gaps between kept ranges. */
  lemma FreeListIsMaximalGaps(t: Tiles, lo: nat, hi: nat, b: nat, s: nat)
    requires Tiled(t, lo, hi) && Canonical(t)
    ensures IsFreeBlock(t, b, s) <==> IsMaximalGap(KeptOf(t), lo, hi, b, s)
  {
    if b in FreeOf(t) {
      FreeBlockIsMaximalGap(t, lo, hi, b);
    }
    if IsMaximalGap(KeptOf(t), lo, hi, b, s) {
      MaximalGapIsFreeBlock(t, lo, hi, b, s);
    }
  }

  /** Two histories that reach the same kept ranges and high-water mark have the same free list. */
  lemma FreeListDetermined(t: Tiles, u: Tiles, lo: nat, hi: nat)
    requires Tiled(t, lo, hi) && Canonical(t) && Tiled(u, lo, hi) && Canonical(u)
    requires KeptOf(t) == KeptOf(u)
    ensures FreeOf(t) == FreeOf(u)
  {
    forall b, s
      ensures IsFreeBlock(t, b, s) <==> IsFreeBlock(u, b, s)
    {
      FreeListIsMaximalGaps(t, lo, hi, b, s);
      FreeListIsMaximalGaps(u, lo, hi, b, s);
    }
    forall b | b in FreeOf(t)
      ensures b in FreeOf(u) && FreeOf(t)[b] == FreeOf(u)[b]
    {
      assert IsFreeBlock(t, b, FreeOf(t)[b]);
    }
    forall b | b in FreeOf(u)
      ensures b in FreeOf(t)
    {
      assert IsFreeBlock(u, b, FreeOf(u)[b]);
    }
  }

  /** Once everything is freed and nothing was abandoned, one block is left. */
  lemma EverythingFreed(t: Tiles, lo: nat, hi: nat)
    requires Tiled(t, lo, hi) && Canonical(t) && KeptOf(t) == map[]
    ensures FreeOf(t) == if lo == hi then map[] else map[lo := hi - lo]
  {
    NothingBeyond(t, lo, hi);
    if lo < hi {
      MaximalGapIsFreeBlock(t, lo, hi, lo, hi - lo);
      assert lo in t && forall b <- t :: b <= lo;
    }
  }
}

/** When a small request can be met: where its range goes, and whether the pages behind it that are not
    mapped can be backed (csrc/small_allocator.cc:54-92 and 181-201). */
module Room {
  import opened Common
  import opened Tiling
  import opened Ranges
  import opened SmallPages
  import R = Ranges

  /** Where the next range of that size goes: the best fit, or above the high-water mark if nothing
      fits. */
  ghost predicate Choice(r: R.View, size: nat, at: nat) {
    && r.base <= at && at + size <= r.base + r.size
    && (BestFit(r.free_by_addr, size, at) || (NoneFits(r.free_by_addr, size) && at == r.base + r.high_water))
  }

  /** A range is to be had, and there is room for the pages behind it that are not mapped. */
  ghost predicate Fits(r: R.View, mapped: seq<bool>, room: int, size: nat) {
    exists at: nat :: Choice(r, size, at) && BackedWithin(r, mapped, room, size, at)
  }

  ghost predicate BackedWithin(r: R.View, mapped: seq<bool>, room: int, size: nat, at: nat) {
    && 0 < size && r.base <= at && at + size <= r.base + |mapped| * PAGE
    && Backing(r.base, mapped, at, size) <= room
  }

  /** There is only one choice, so what becomes of it decides. */
  lemma ChoiceDecides(r: R.View, mapped: seq<bool>, room: int, size: nat, at: nat)
    requires Choice(r, size, at)
    ensures Fits(r, mapped, room, size) <==> BackedWithin(r, mapped, room, size, at)
  {
    forall b | Choice(r, size, b)
      ensures b == at
    {
    }
  }

  lemma NoChoice(r: R.View, mapped: seq<bool>, room: int, size: nat)
    requires NoneFits(r.free_by_addr, size) && r.high_water + size > r.size
    ensures !Fits(r, mapped, room, size)
  {
  }

  // ---- once everything has been reclaimed ------------------------------------------------------------

  /** What stays when everything else is freed and reclaimed: the small ranges and their pages, the
      high-water mark, and the bytes reserved by large allocations. */
  datatype Residue = Residue(stay: map<nat, nat>, pages: seq<bool>, high_water: nat, large: nat)

  /** The bytes no reclaiming can give back. */
  ghost function BytesOf(left: Residue): nat {
    left.large + PAGE * Count(left.pages)
  }

  ghost predicate Gap(left: Residue, base: nat, at: nat, s: nat) {
    IsMaximalGap(left.stay, base, base + left.high_water, at, s)
  }

  /** at is the smallest gap of at least size bytes between the ranges that stay, and the lowest among
      those. */
  ghost predicate BestGap(left: Residue, base: nat, size: nat, at: nat) {
    exists s: nat :: Gap(left, base, at, s) && s >= size && BeatsOthers(left, base, size, at, s)
  }

  ghost predicate BeatsOthers(left: Residue, base: nat, size: nat, at: nat, s: nat) {
    forall c: nat, t: nat :: Gap(left, base, c, t) && t >= size ==> s < t || (s == t && at <= c)
  }

  ghost predicate NoGap(left: Residue, base: nat, size: nat) {
    forall c: nat, t: nat :: Gap(left, base, c, t) ==> t < size
  }

  /** A small request can be met within what stands: there is a gap for it, or space above the
      high-water mark, and there is room for the pages it takes beyond those that are mapped. */
  ghost predicate FitsWithin(left: Residue, base: nat, va_size: nat, room: int, size: nat) {
    exists at: nat ::
      && base <= at && at + size <= base + va_size
      && GapChoice(left, base, size, at)
      && 0 < size && at + size <= base + |left.pages| * PAGE
      && Backing(base, left.pages, at, size) <= room
  }

  ghost predicate GapChoice(left: Residue, base: nat, size: nat, at: nat) {
    BestGap(left, base, size, at) || (NoGap(left, base, size) && at == base + left.high_water)
  }

  lemma FreeIsGap(r: R.View, left: Residue, b: nat, s: nat)
    requires Audited(r) && left.stay == KeptOf(r.tiles) && left.high_water == r.high_water
    ensures b in r.free_by_addr && r.free_by_addr[b] == s <==> Gap(left, r.base, b, s)
  {
    FreeListIsGaps(r, b, s);
  }

  lemma BestFitIsBestGap(r: R.View, left: Residue, size: nat, at: nat)
    requires Audited(r) && left.stay == KeptOf(r.tiles) && left.high_water == r.high_water
    ensures BestFit(r.free_by_addr, size, at) <==> BestGap(left, r.base, size, at)
  {
    var free := r.free_by_addr;
    if BestFit(free, size, at) {
      FreeIsGap(r, left, at, free[at]);
      forall c: nat, t: nat | Gap(left, r.base, c, t) && t >= size
        ensures free[at] < t || (free[at] == t && at <= c)
      {
        FreeIsGap(r, left, c, t);
      }
      assert BeatsOthers(left, r.base, size, at, free[at]);
    }
    if BestGap(left, r.base, size, at) {
      var s: nat :| Gap(left, r.base, at, s) && s >= size && BeatsOthers(left, r.base, size, at, s);
      FreeIsGap(r, left, at, s);
      forall c | c in free && free[c] >= size
        ensures s < free[c] || (s == free[c] && at <= c)
      {
        FreeIsGap(r, left, c, free[c]);
      }
    }
  }

  lemma NoneFitsIsNoGap(r: R.View, left: Residue, size: nat)
    requires Audited(r) && left.stay == KeptOf(r.tiles) && left.high_water == r.high_water
    ensures NoneFits(r.free_by_addr, size) <==> NoGap(left, r.base, size)
  {
    if NoneFits(r.free_by_addr, size) {
      forall c: nat, t: nat | Gap(left, r.base, c, t)
        ensures t < size
      {
        FreeIsGap(r, left, c, t);
      }
    } else {
      var c :| c in r.free_by_addr && r.free_by_addr[c] >= size;
      FreeIsGap(r, left, c, r.free_by_addr[c]);
    }
  }

  /** A request fits a state exactly if it fits within what stands in it. */
  lemma FitsIsFitsWithin(r: R.View, mapped: seq<bool>, room: int, left: Residue, size: nat)
    requires Audited(r) && left.stay == KeptOf(r.tiles) && left.high_water == r.high_water && left.pages == mapped
    ensures Fits(r, mapped, room, size) <==> FitsWithin(left, r.base, r.size, room, size)
  {
    NoneFitsIsNoGap(r, left, size);
    forall at: nat
      ensures BestFit(r.free_by_addr, size, at) <==> BestGap(left, r.base, size, at)
    {
      BestFitIsBestGap(r, left, size, at);
    }
    if Fits(r, mapped, room, size) {
      var at: nat :| Choice(r, size, at) && BackedWithin(r, mapped, room, size, at);
      assert GapChoice(left, r.base, size, at);
    }
    if FitsWithin(left, r.base, r.size, room, size) {
      var at: nat :|
        && r.base <= at && at + size <= r.base + r.size
        && GapChoice(left, r.base, size, at)
        && 0 < size && at + size <= r.base + |left.pages| * PAGE
        && Backing(r.base, left.pages, at, size) <= room;
      assert Choice(r, size, at) && BackedWithin(r, mapped, room, size, at);
    }
  }

  // ---- what a failed attempt leaves behind ---------------------------------------------------------------

  /** The range at at has been abandoned: it stays, with those of its pages that have been mapped. */
  ghost predicate AbandonedAt(left: Residue, left': Residue, base: nat, size: nat, at: nat) {
    && base <= at && (forall k <- left.stay :: k + left.stay[k] <= at || at + size <= k)
    && left'.stay == left.stay[at := size] && left'.large == left.large
    && left'.high_water == (if at + size > base + left.high_water then at + size - base else left.high_water)
    && MoreMapped(left.pages, left'.pages, base, at, size)
  }

  /** A failed attempt abandons at most one range. */
  ghost predicate AfterFailure(left: Residue, left': Residue, base: nat, size: nat) {
    left' == left || exists at: nat :: AbandonedAt(left, left', base, size, at)
  }

}

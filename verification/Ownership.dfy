/** Where each physical block of a device sits: in a free list, behind a small page, or behind a
    slot of a large allocation. */
module Ownership {
  import opened Common
  import opened Parts
  import opened Pools
  import G = SmallPages
  import B = LargeBlocks
  import D = CudaDriver

  datatype Location = SmallFree(index: nat) | Bucket(class_: nat, index: nat) | Page(page: nat) | Slot(va: nat, index: nat)

  /** Handle h is found at location l. */
  ghost predicate SitsAt(v: Manager, g: G.View, allocs: B.Allocations, h: nat, l: Location)
    requires |g.mapped| == |g.blocks|
  {
    match l
    case SmallFree(i) => i < |v.small_free| && v.small_free[i].handle == h
    case Bucket(c, i) => c in v.large_free && i < |v.large_free[c]| && v.large_free[c][i].handle == h
    case Page(p) => p < |g.mapped| && g.mapped[p] && g.blocks[p].handle == h
    case Slot(va, i) => va in allocs && i < |allocs[va].blocks| && allocs[va].blocks[i].handle == h
  }

  ghost function PlaceAt(l: Location): Place {
    match l
    case SmallFree(i) => SmallCache(i)
    case Bucket(c, i) => LargeCache(c, i)
    case Page(_) => SmallUse
    case Slot(_, _) => LargeUse
  }

  /** The places of a device's blocks, its page table and its large allocations, audited together. */
  ghost predicate Whole(d: D.State, v: Manager, base: nat, g: G.View, allocs: B.Allocations) {
    && g.base == base && |g.mapped| == |g.blocks|
    && Audit(d, v).Sound? && G.Pages(SmallPart(d, v.place, base), v.small_in_use_bytes, g).Sound?
    && B.Records(RestPart(d, v.place, base), allocs).Sound? && B.Used(RestPart(d, v.place, base)).Sound?
  }

  lemma {:induction false} SlotMapped(region: nat, at: nat, blocks: seq<PhysicalBlock>, i: nat) returns (v: nat)
    requires B.Positive(blocks) && i < |blocks|
    ensures v in B.BlockMaps(region, at, blocks) && v == at + Total(blocks[..i])
    ensures B.BlockMaps(region, at, blocks)[v].handle == blocks[i].handle
    decreases |blocks|
  {
    B.BlockMapsFirst(region, at, blocks);
    if i == 0 {
      v := at;
      assert blocks[..0] == [];
    } else {
      assert forall b <- blocks[1..] :: b in blocks;
      v := SlotMapped(region, at + blocks[0].size, blocks[1..], i - 1);
      assert blocks[..i][0] == blocks[0] && blocks[..i][1..] == blocks[1..][..i - 1];
    }
  }

  /** Being found somewhere determines a block's place. */
  lemma FoundMeansPlaced(d: D.State, v: Manager, base: nat, g: G.View, allocs: B.Allocations, h: nat, l: Location)
    requires Whole(d, v, base, g, allocs) && SitsAt(v, g, allocs, h, l)
    ensures h in v.place && v.place[h] == PlaceAt(l) && h in d.live
  {
    match l {
      case SmallFree(i) => FreeMeansPlaced(d, v, h, l);
      case Bucket(c, i) => FreeMeansPlaced(d, v, h, l);
      case Page(p) =>
        G.SlotOf(SmallPart(d, v.place, base), v.small_in_use_bytes, g, p);
      case Slot(va, i) =>
        var w := SlotIsMapped(RestPart(d, v.place, base), allocs, va, i);
    }
  }

  lemma FreeMeansPlaced(d: D.State, v: Manager, h: nat, l: Location)
    requires Audit(d, v).Sound?
    requires (l.SmallFree? && l.index < |v.small_free| && v.small_free[l.index].handle == h)
             || (l.Bucket? && l.class_ in v.large_free && l.index < |v.large_free[l.class_]| && v.large_free[l.class_][l.index].handle == h)
    ensures h in v.place && v.place[h] == PlaceAt(l) && h in d.live
    ensures l.Bucket? ==> d.live[h] == l.class_
  {
    assert Open(Seal);
    if l.SmallFree? {
      assert Sits(d.live, v.place, v.small_free[l.index], PAGE, SmallCache(l.index));
    } else {
      assert Sits(d.live, v.place, v.large_free[l.class_][l.index], l.class_, LargeCache(l.class_, l.index));
    }
  }

  lemma SlotIsMapped(r: Part, allocs: B.Allocations, va: nat, i: nat) returns (w: nat)
    requires B.Records(r, allocs).Sound? && B.Used(r).Sound? && va in allocs && i < |allocs[va].blocks|
    ensures w in r.maps && r.maps[w].handle == allocs[va].blocks[i].handle && r.maps[w].region == va
    ensures r.maps[w].handle in r.used
  {
    assert B.OpenRecords(Seal) && B.OpenUsed(Seal);
    var a := allocs[va];
    assert B.RecordOk(r, va, a);
    w := SlotMapped(va, va, a.blocks, i);
    assert w in MapsIn(r.maps, va);
  }

  lemma SameSlot(r: Part, allocs: B.Allocations, va: nat, i: nat, wb: nat, j: nat)
    requires B.Records(r, allocs).Sound? && B.Used(r).Sound?
    requires va in allocs && i < |allocs[va].blocks| && wb in allocs && j < |allocs[wb].blocks|
    requires allocs[va].blocks[i].handle == allocs[wb].blocks[j].handle
    ensures va == wb && i == j
  {
    var v := SlotIsMapped(r, allocs, va, i);
    var w := SlotIsMapped(r, allocs, wb, j);
    assert B.OpenRecords(Seal) && B.OpenUsed(Seal);
    assert v < w || v == w || w < v;
    assert B.RecordOk(r, va, allocs[va]);
    assert i < j || i == j || j < i;
  }

  lemma SamePage(s: Part, in_use: int, g: G.View, p: nat, q: nat)
    requires G.Pages(s, in_use, g).Sound? && p < |g.mapped| && q < |g.mapped| && g.mapped[p] && g.mapped[q]
    ensures |g.mapped| == |g.blocks| && (g.blocks[p].handle == g.blocks[q].handle ==> p == q)
  {
    assert G.OpenPages(Seal);
    assert p < q || p == q || q < p;
  }

  lemma {:induction false} HandleHasSlot(blocks: seq<PhysicalBlock>, h: nat) returns (i: nat)
    requires h in B.Uses(blocks)
    ensures i < |blocks| && blocks[i].handle == h
  {
    B.UsesOf(blocks, h);
    i :| 0 <= i < |blocks| && blocks[i].handle == h;
  }

  lemma UsedHasSlot(r: Part, allocs: B.Allocations, h: nat) returns (va: nat, i: nat)
    requires B.Records(r, allocs).Sound? && B.Used(r).Sound? && h in r.used
    ensures va in allocs && i < |allocs[va].blocks| && allocs[va].blocks[i].handle == h
  {
    assert B.OpenRecords(Seal) && B.OpenUsed(Seal);
    assert h in B.Handles(r.maps);
    var w :| w in r.maps && r.maps[w].handle == h;
    va := r.maps[w].region;
    var a := allocs[va];
    assert B.RecordOk(r, va, a);
    B.UsesOfRecord(r, va, a, w);
    i := HandleHasSlot(a.blocks, h);
  }

  lemma UsedHasPage(s: Part, in_use: int, g: G.View, h: nat) returns (p: nat)
    requires G.Pages(s, in_use, g).Sound? && h in s.used
    ensures |g.mapped| == |g.blocks| && p < |g.mapped| && g.mapped[p] && g.blocks[p].handle == h
  {
    assert G.OpenPages(Seal);
    assert G.BlockInSlot(g, h);
    p :| 0 <= p < |g.mapped| && g.mapped[p] && g.blocks[p].handle == h;
  }

  lemma PlaceOfLive(d: D.State, v: Manager, h: nat)
    requires Audit(d, v).Sound? && h in d.live
    ensures h in v.place && !v.place[h].Doomed?
    ensures v.place[h].SmallCache? ==> v.place[h].index < |v.small_free| && v.small_free[v.place[h].index].handle == h
    ensures v.place[h].LargeCache? ==> var p := v.place[h];
              p.class_ in v.large_free && p.index < |v.large_free[p.class_]| && v.large_free[p.class_][p.index].handle == h
  {
    assert Open(Seal);
    assert h in v.place;
    assert Found(d.live, h, v.place[h], v.small_free, v.large_free, [], 0);
  }

  lemma LocationOf(d: D.State, v: Manager, base: nat, g: G.View, allocs: B.Allocations, h: nat) returns (l: Location)
    requires Whole(d, v, base, g, allocs) && h in d.live
    ensures SitsAt(v, g, allocs, h, l)
  {
    PlaceOfLive(d, v, h);
    match v.place[h] {
      case SmallCache(i) => l := SmallFree(i);
      case LargeCache(c, i) => l := Bucket(c, i);
      case SmallUse =>
        var p := UsedHasPage(SmallPart(d, v.place, base), v.small_in_use_bytes, g, h);
        l := Page(p);
      case LargeUse =>
        var va, i := UsedHasSlot(RestPart(d, v.place, base), allocs, h);
        l := Slot(va, i);
    }
  }

  /** Every live block sits in exactly one place; cached blocks are unmapped and lie in the bucket
      of their own size. */
  lemma ExactlyOneLocation(d: D.State, v: Manager, base: nat, g: G.View, allocs: B.Allocations, h: nat)
    requires Whole(d, v, base, g, allocs) && h in d.live
    ensures exists l :: SitsAt(v, g, allocs, h, l)
    ensures forall l, m :: SitsAt(v, g, allocs, h, l) && SitsAt(v, g, allocs, h, m) ==> l == m
    ensures forall l :: SitsAt(v, g, allocs, h, l) && (l.SmallFree? || l.Bucket?) ==> h !in d.mappedAt
    ensures forall l :: SitsAt(v, g, allocs, h, l) && l.Bucket? ==> d.live[h] == l.class_
  {
    var x := LocationOf(d, v, base, g, allocs, h);
    forall l, m | SitsAt(v, g, allocs, h, l) && SitsAt(v, g, allocs, h, m)
      ensures l == m
    {
      FoundMeansPlaced(d, v, base, g, allocs, h, l);
      FoundMeansPlaced(d, v, base, g, allocs, h, m);
      SamePlaceSameLocation(d, v, base, g, allocs, h, l, m);
    }
    forall l | SitsAt(v, g, allocs, h, l) && (l.SmallFree? || l.Bucket?)
      ensures h !in d.mappedAt && (l.Bucket? ==> d.live[h] == l.class_)
    {
      FreeMeansPlaced(d, v, h, l);
      CachedUnmapped(d, v, h);
    }
  }

  lemma CachedUnmapped(d: D.State, v: Manager, h: nat)
    requires Audit(d, v).Sound? && h in v.place && IsCached(v.place[h])
    ensures h !in d.mappedAt
  {
    assert Open(Seal);
  }

  lemma SamePlaceSameLocation(d: D.State, v: Manager, base: nat, g: G.View, allocs: B.Allocations, h: nat, l: Location, m: Location)
    requires Whole(d, v, base, g, allocs) && SitsAt(v, g, allocs, h, l) && SitsAt(v, g, allocs, h, m) && PlaceAt(l) == PlaceAt(m)
    ensures l == m
  {
    match l {
      case Page(p) => SamePage(SmallPart(d, v.place, base), v.small_in_use_bytes, g, p, m.page);
      case Slot(va, i) => SameSlot(RestPart(d, v.place, base), allocs, va, i, m.va, m.index);
      case _ =>
    }
  }
}

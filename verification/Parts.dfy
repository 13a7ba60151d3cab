/** How a driver state divides between the two sub-allocators of a device: the reservation of the
    small allocator, and everything else. A step of one allocator leaves the other's part alone. */
module Parts {
  import opened Common
  import opened Pools
  import D = CudaDriver

  /** Reservations, mappings, access rights, and the blocks in use with their sizes. */
  datatype Part = Part(reserved: map<nat, nat>, maps: D.Maps, access: map<nat, set<int>>, used: map<nat, nat>)

  ghost function MapsIn(maps: D.Maps, region: nat): D.Maps {
    map v | v in maps && maps[v].region == region :: maps[v]
  }

  ghost function MapsOut(maps: D.Maps, region: nat): D.Maps {
    map v | v in maps && maps[v].region != region :: maps[v]
  }

  ghost function AccessOf(access: map<nat, set<int>>, maps: D.Maps): map<nat, set<int>> {
    map v | v in maps && v in access :: access[v]
  }

  ghost function UsedAs(live: map<nat, nat>, place: Places, p: Place): map<nat, nat> {
    map h | h in place && place[h] == p && h in live :: live[h]
  }

  ghost function SmallPart(d: D.State, place: Places, base: nat): Part {
    Part(map r | r in d.reserved && r == base :: d.reserved[r], MapsIn(d.maps, base),
         AccessOf(d.access, MapsIn(d.maps, base)), UsedAs(d.live, place, SmallUse))
  }

  ghost function RestPart(d: D.State, place: Places, base: nat): Part {
    Part(d.reserved - {base}, MapsOut(d.maps, base), AccessOf(d.access, MapsOut(d.maps, base)),
         UsedAs(d.live, place, LargeUse))
  }

  /** The two parts together are the whole address space. */
  lemma PartsAreAll(d: D.State, place: Places, d': D.State, place': Places, base: nat)
    requires SmallPart(d, place, base) == SmallPart(d', place', base) && RestPart(d, place, base) == RestPart(d', place', base)
    ensures d.reserved == d'.reserved && d.maps == d'.maps
  {
    forall r
      ensures r in d.reserved <==> r in d'.reserved
      ensures r in d.reserved ==> r in d'.reserved && d.reserved[r] == d'.reserved[r]
    {
      assert r != base ==> (r in d.reserved <==> r in RestPart(d, place, base).reserved);
      assert r == base ==> (r in d.reserved <==> r in SmallPart(d, place, base).reserved);
    }
    SameMaps(d.maps, d'.maps, base);
  }

  lemma SameMaps(maps: D.Maps, maps': D.Maps, base: nat)
    requires MapsIn(maps, base) == MapsIn(maps', base) && MapsOut(maps, base) == MapsOut(maps', base)
    ensures maps == maps'
  {
    forall v | v in maps
      ensures v in maps' && maps[v] == maps'[v]
    {
      assert v in MapsIn(maps, base) || v in MapsOut(maps, base);
    }
    forall v | v in maps'
      ensures v in maps
    {
      assert v in MapsIn(maps', base) || v in MapsOut(maps', base);
    }
  }

  /** The owning device and its registered peers. */
  ghost function Devices(device: int, peers: seq<int>): set<int> {
    {device} + set x | x in peers
  }

  // ---- blocks changing hands ---------------------------------------------------------------------

  lemma UsedNew(live: map<nat, nat>, place: Places, h: nat, size: nat, p: Place, p': Place)
    requires live.Keys == place.Keys && h !in live && p != p'
    ensures UsedAs(live[h := size], place[h := p], p) == UsedAs(live, place, p)[h := size]
    ensures UsedAs(live[h := size], place[h := p], p') == UsedAs(live, place, p')
    ensures h !in UsedAs(live, place, p)
  {
  }

  lemma HandedUse(d: D.State, v: Manager, d': D.State, v': Manager, b: PhysicalBlock, size: nat, p: Place, p': Place)
    requires Handed(d, v, d', v', b, size, p) && d.live.Keys == v.place.Keys
    requires (p == SmallUse && p' == LargeUse) || (p == LargeUse && p' == SmallUse)
    ensures UsedAs(d'.live, v'.place, p) == UsedAs(d.live, v.place, p)[b.handle := size]
    ensures UsedAs(d'.live, v'.place, p') == UsedAs(d.live, v.place, p')
    ensures b.handle !in UsedAs(d.live, v.place, p)
    ensures d' == d.(live := d'.live)
  {
    if b.handle in d.live {
    } else {
      UsedNew(d.live, v.place, b.handle, size, p, p');
    }
  }

  /** A block handed to one allocator enters its part, and no other part changes. */
  lemma HandedSmall(d: D.State, v: Manager, d': D.State, v': Manager, b: PhysicalBlock, base: nat)
    requires Handed(d, v, d', v', b, PAGE, SmallUse) && d.live.Keys == v.place.Keys
    ensures b.handle !in SmallPart(d, v.place, base).used
    ensures RestPart(d', v'.place, base) == RestPart(d, v.place, base)
    ensures SmallPart(d', v'.place, base)
            == SmallPart(d, v.place, base).(used := SmallPart(d, v.place, base).used[b.handle := PAGE])
  {
    HandedUse(d, v, d', v', b, PAGE, SmallUse, LargeUse);
  }

  lemma HandedLarge(d: D.State, v: Manager, d': D.State, v': Manager, b: PhysicalBlock, size: nat, base: nat)
    requires Handed(d, v, d', v', b, size, LargeUse) && d.live.Keys == v.place.Keys
    ensures b.handle !in RestPart(d, v.place, base).used
    ensures SmallPart(d', v'.place, base) == SmallPart(d, v.place, base)
    ensures RestPart(d', v'.place, base)
            == RestPart(d, v.place, base).(used := RestPart(d, v.place, base).used[b.handle := size])
  {
    HandedUse(d, v, d', v', b, size, LargeUse, SmallUse);
  }

  lemma ReturnedTo(live: map<nat, nat>, place: Places, place': Places, h: nat, p: Place)
    requires h in place && place[h] == p && h in place' && place' == place[h := place'[h]]
    requires p == SmallUse || p == LargeUse
    requires PoolOf(place'[h]) == (if p == SmallUse then SmallCached else LargeCached)
    ensures UsedAs(live, place', SmallUse) == if p == SmallUse then UsedAs(live, place, SmallUse) - {h} else UsedAs(live, place, SmallUse)
    ensures UsedAs(live, place', LargeUse) == if p == LargeUse then UsedAs(live, place, LargeUse) - {h} else UsedAs(live, place, LargeUse)
  {
  }

  /** Releasing cached blocks concerns neither allocator. */
  lemma CachedReleased(d: D.State, place: Places, gone: set<nat>, base: nat)
    requires gone <= CachedHandles(place)
    ensures SmallPart(d.(live := d.live - gone), place - gone, base) == SmallPart(d, place, base)
    ensures RestPart(d.(live := d.live - gone), place - gone, base) == RestPart(d, place, base)
  {
    assert UsedAs(d.live - gone, place - gone, SmallUse) == UsedAs(d.live, place, SmallUse);
    assert UsedAs(d.live - gone, place - gone, LargeUse) == UsedAs(d.live, place, LargeUse);
  }

  // ---- mapping ---------------------------------------------------------------------------------------

  lemma PutMaps(maps: D.Maps, va: nat, seg: D.Segment, base: nat)
    requires va !in maps
    ensures MapsIn(maps[va := seg], base) == if seg.region == base then MapsIn(maps, base)[va := seg] else MapsIn(maps, base)
    ensures MapsOut(maps[va := seg], base) == if seg.region == base then MapsOut(maps, base) else MapsOut(maps, base)[va := seg]
  {
  }

  lemma PutAccess(access: map<nat, set<int>>, maps: D.Maps, va: nat, seg: D.Segment)
    requires va !in maps
    ensures AccessOf(access[va := {}], maps[va := seg]) == AccessOf(access, maps)[va := {}]
    ensures AccessOf(access[va := {}], maps) == AccessOf(access, maps)
  {
  }

  lemma CutMaps(maps: D.Maps, va: nat, base: nat)
    requires va in maps
    ensures MapsIn(maps - {va}, base) == MapsIn(maps, base) - {va}
    ensures MapsOut(maps - {va}, base) == MapsOut(maps, base) - {va}
    ensures maps[va].region != base ==> MapsIn(maps, base) - {va} == MapsIn(maps, base)
    ensures maps[va].region == base ==> MapsOut(maps, base) - {va} == MapsOut(maps, base)
  {
  }

  lemma MappedSmall(d: D.State, place: Places, va: nat, seg: D.Segment)
    requires va !in d.maps
    ensures var s := SmallPart(d, place, seg.region);
            SmallPart(D.Mapped(d, va, seg), place, seg.region) == s.(maps := s.maps[va := seg], access := s.access[va := {}])
    ensures RestPart(D.Mapped(d, va, seg), place, seg.region) == RestPart(d, place, seg.region)
  {
    PutMaps(d.maps, va, seg, seg.region);
    PutAccess(d.access, MapsIn(d.maps, seg.region), va, seg);
    PutAccess(d.access, MapsOut(d.maps, seg.region), va, seg);
  }

  lemma MappedLarge(d: D.State, place: Places, va: nat, seg: D.Segment, base: nat)
    requires va !in d.maps && seg.region != base
    ensures var r := RestPart(d, place, base);
            RestPart(D.Mapped(d, va, seg), place, base) == r.(maps := r.maps[va := seg], access := r.access[va := {}])
    ensures SmallPart(D.Mapped(d, va, seg), place, base) == SmallPart(d, place, base)
  {
    PutMaps(d.maps, va, seg, base);
    PutAccess(d.access, MapsIn(d.maps, base), va, seg);
    PutAccess(d.access, MapsOut(d.maps, base), va, seg);
  }

  lemma UnmappedSmall(d: D.State, place: Places, va: nat, base: nat)
    requires va in d.maps && d.maps[va].region == base
    ensures var s := SmallPart(d, place, base);
            SmallPart(D.Unmapped(d, va), place, base) == s.(maps := s.maps - {va}, access := s.access - {va})
    ensures RestPart(D.Unmapped(d, va), place, base) == RestPart(d, place, base)
  {
    CutMaps(d.maps, va, base);
  }

  lemma UnmappedLarge(d: D.State, place: Places, va: nat, base: nat)
    requires va in d.maps && d.maps[va].region != base
    ensures var r := RestPart(d, place, base);
            RestPart(D.Unmapped(d, va), place, base) == r.(maps := r.maps - {va}, access := r.access - {va})
    ensures SmallPart(D.Unmapped(d, va), place, base) == SmallPart(d, place, base)
  {
    CutMaps(d.maps, va, base);
  }

  /** Granting access inside one reservation reaches no mapping of another. */
  lemma OtherRegionsOutside(d: D.State, region: nat, va: nat, size: nat)
    requires D.Sane(d).Sound? && D.Inside(d.reserved, region, va, size)
    ensures forall v <- d.maps :: va <= v < va + size ==> d.maps[v].region == region
  {
    assert Open(Seal);
    forall v | v in d.maps && va <= v < va + size
      ensures d.maps[v].region == region
    {
      var r := d.maps[v].region;
      assert r < region || r == region || region < r;
    }
  }

  lemma OthersApart(d: D.State, region: nat, va: nat, size: nat)
    requires D.Sane(d).Sound? && D.Inside(d.reserved, region, va, size)
    ensures forall v <- d.maps :: d.maps[v].region != region ==> v + d.maps[v].size <= va || va + size <= v
    ensures forall v <- d.maps :: d.maps[v].size > 0
  {
    assert Open(Seal);
    forall v | v in d.maps && d.maps[v].region != region
      ensures v + d.maps[v].size <= va || va + size <= v
    {
      var r := d.maps[v].region;
      assert r < region || region < r;
    }
  }

  lemma MappingCovers(maps: D.Maps, va: nat)
    requires va in maps
    ensures D.Covered(maps, va, maps[va].size)
  {
    forall x: nat {:trigger D.IsMapped(maps, x)} | va <= x < va + maps[va].size
      ensures D.IsMapped(maps, x)
    {
      assert D.Holds(maps, va, x);
    }
  }

  lemma GrantAccess(access: map<nat, set<int>>, maps: D.Maps, va: nat, size: nat, devices: set<int>)
    ensures AccessOf(D.Grant(access, va, size, devices), maps) == D.Grant(AccessOf(access, maps), va, size, devices)
    ensures (forall v <- maps :: !(va <= v < va + size)) ==> D.Grant(AccessOf(access, maps), va, size, devices) == AccessOf(access, maps)
  {
  }

  lemma GrantedIn(d: D.State, place: Places, region: nat, va: nat, size: nat, devices: set<int>, base: nat)
    requires D.Sane(d).Sound? && D.Inside(d.reserved, region, va, size)
    ensures var e := D.Granted(d, va, size, devices);
            var s := SmallPart(d, place, base);
            var r := RestPart(d, place, base);
            && SmallPart(e, place, base) == (if region == base then s.(access := D.Grant(s.access, va, size, devices)) else s)
            && RestPart(e, place, base) == (if region == base then r else r.(access := D.Grant(r.access, va, size, devices)))
  {
    OtherRegionsOutside(d, region, va, size);
    GrantAccess(d.access, MapsIn(d.maps, base), va, size, devices);
    GrantAccess(d.access, MapsOut(d.maps, base), va, size, devices);
  }

  // ---- reservations ----------------------------------------------------------------------------------------

  lemma ReservedIn(d: D.State, place: Places, region: nat, size: nat, base: nat)
    requires region != base && region !in d.reserved
    ensures var e := D.Reserved(d, region, size);
            var r := RestPart(d, place, base);
            && SmallPart(e, place, base) == SmallPart(d, place, base)
            && RestPart(e, place, base) == r.(reserved := r.reserved[region := size])
  {
    var e := D.Reserved(d, region, size);
    assert e.reserved - {base} == (d.reserved - {base})[region := size];
  }

  lemma UnreservedIn(d: D.State, place: Places, region: nat, base: nat)
    requires region != base
    ensures var e := D.Unreserved(d, region);
            var r := RestPart(d, place, base);
            && SmallPart(e, place, base) == SmallPart(d, place, base)
            && RestPart(e, place, base) == r.(reserved := r.reserved - {region})
  {
    var e := D.Unreserved(d, region);
    assert e.reserved - {base} == (d.reserved - {base}) - {region};
  }

  // ---- the manager's invariant across driver calls ----------------------------------------------------------

  lemma MappedKeeps(d: D.State, v: Manager, va: nat, seg: D.Segment)
    requires Audit(d, v).Sound? && seg.handle in v.place && (v.place[seg.handle] == SmallUse || v.place[seg.handle] == LargeUse)
    ensures Audit(D.Mapped(d, va, seg), v).Sound?
  {
    assert Open(Seal);
  }

  lemma UnmappedKeeps(d: D.State, v: Manager, va: nat)
    requires Audit(d, v).Sound? && va in d.maps
    ensures Audit(D.Unmapped(d, va), v).Sound?
  {
    assert Open(Seal);
  }

  /** Reserving, freeing a reservation and granting access concern no block. */
  lemma OtherKeeps(d: D.State, v: Manager, e: D.State)
    requires Audit(d, v).Sound? && e.live == d.live && e.mappedAt == d.mappedAt
    ensures Audit(e, v).Sound?
  {
    assert Open(Seal);
  }

  lemma PlacesAreLive(d: D.State, v: Manager)
    requires Audit(d, v).Sound?
    ensures v.place.Keys == d.live.Keys
  {
    assert Open(Seal);
  }
}

/** A model of the CUDA virtual memory management calls the allocator uses
    (include/cuda_driver_api.h). The preconditions are stricter than CUDA's: a handle may be
    mapped at one place only, a mapping is undone by the very range that made it, and a handle or
    reservation is given back only when nothing is mapped on it. */
module CudaDriver {
  import opened Common
  import opened Sums

  /** One mapping: which physical handle backs it, how long it is, and in which reservation it lies. */
  datatype Segment = Segment(handle: nat, size: nat, region: nat)

  type Maps = map<nat, Segment>

  /** live: handle to bytes; reserved: start to length of each reservation; mappedAt: the inverse
      of maps; access: the devices that may use each mapping. */
  datatype State = State(live: map<nat, nat>, reserved: map<nat, nat>, maps: Maps,
                         mappedAt: map<nat, nat>, access: map<nat, set<int>>)

  const EMPTY: State := State(map[], map[], map[], map[], map[])

  ghost predicate ReservedOk(reserved: map<nat, nat>) {
    && (forall r <- reserved :: r % PAGE == 0 && reserved[r] > 0)
    && (forall r, s :: r in reserved && s in reserved && r < s ==> r + reserved[r] <= s)
  }

  ghost predicate Inside(reserved: map<nat, nat>, region: nat, va: nat, size: nat) {
    region in reserved && region <= va && va + size <= region + reserved[region]
  }

  ghost predicate MapsInside(maps: Maps, reserved: map<nat, nat>) {
    forall v <- maps :: maps[v].size > 0 && Inside(reserved, maps[v].region, v, maps[v].size)
  }

  ghost predicate MapsDisjoint(maps: Maps) {
    forall v, w :: v in maps && w in maps && v < w ==> v + maps[v].size <= w
  }

  /** mappedAt is the inverse of maps, so no handle is mapped twice. */
  ghost predicate MapsInvert(maps: Maps, mappedAt: map<nat, nat>) {
    && (forall v <- maps :: maps[v].handle in mappedAt && mappedAt[maps[v].handle] == v)
    && (forall h <- mappedAt :: mappedAt[h] in maps && maps[mappedAt[h]].handle == h)
  }

  ghost predicate MapsLive(maps: Maps, live: map<nat, nat>) {
    forall v <- maps :: maps[v].handle in live && live[maps[v].handle] == maps[v].size
  }

  ghost predicate Ok(s: State) {
    && ReservedOk(s.reserved)
    && MapsInside(s.maps, s.reserved)
    && MapsDisjoint(s.maps)
    && MapsInvert(s.maps, s.mappedAt)
    && MapsLive(s.maps, s.live)
    && s.access.Keys == s.maps.Keys
  }

  ghost predicate Apart(maps: Maps, va: nat, size: nat) {
    forall v <- maps :: v + maps[v].size <= va || va + size <= v
  }

  ghost predicate Holds(maps: Maps, v: nat, x: nat) {
    v in maps && v <= x < v + maps[v].size
  }

  /** Every byte of the range is mapped. */
  ghost predicate Covered(maps: Maps, va: nat, size: nat) {
    forall x: nat {:trigger IsMapped(maps, x)} :: va <= x < va + size ==> IsMapped(maps, x)
  }

  ghost predicate IsMapped(maps: Maps, x: nat) {
    exists v :: Holds(maps, v, x)
  }

  // ---- the calls as functions on the state ----------------------------------------------

  ghost function Created(s: State, handle: nat, size: nat): State {
    s.(live := s.live[handle := size])
  }

  ghost function Released(s: State, handle: nat): State {
    s.(live := s.live - {handle})
  }

  ghost function Reserved(s: State, base: nat, size: nat): State {
    s.(reserved := s.reserved[base := size])
  }

  ghost function Unreserved(s: State, base: nat): State {
    s.(reserved := s.reserved - {base})
  }

  ghost function Mapped(s: State, va: nat, seg: Segment): State {
    s.(maps := s.maps[va := seg], mappedAt := s.mappedAt[seg.handle := va], access := s.access[va := {}])
  }

  ghost function Unmapped(s: State, va: nat): State
    requires va in s.maps
  {
    s.(maps := s.maps - {va}, mappedAt := s.mappedAt - {s.maps[va].handle}, access := s.access - {va})
  }

  ghost function Grant(access: map<nat, set<int>>, va: nat, size: nat, devices: set<int>): map<nat, set<int>> {
    map v | v in access :: if va <= v < va + size then access[v] + devices else access[v]
  }

  ghost function Granted(s: State, va: nat, size: nat, devices: set<int>): State {
    s.(access := Grant(s.access, va, size, devices))
  }

  ghost predicate FreeToReserve(s: State, base: nat, size: nat) {
    && base % PAGE == 0 && size > 0
    && (forall r <- s.reserved :: r + s.reserved[r] <= base || base + size <= r)
  }

  ghost predicate MayMap(s: State, va: nat, seg: Segment) {
    && seg.size > 0 && Inside(s.reserved, seg.region, va, seg.size) && Apart(s.maps, va, seg.size)
    && seg.handle in s.live && s.live[seg.handle] == seg.size && seg.handle !in s.mappedAt
  }

  lemma ReservedKeeps(s: State, base: nat, size: nat)
    requires Ok(s) && FreeToReserve(s, base, size)
    ensures base !in s.reserved && Ok(Reserved(s, base, size))
  {
    assert base !in s.reserved;
    assert MapsInside(s.maps, s.reserved[base := size]);
  }

  lemma UnreservedOk(s: State, base: nat)
    requires Ok(s) && forall v <- s.maps :: s.maps[v].region != base
    ensures Ok(Unreserved(s, base))
  {
    assert ReservedOk(s.reserved - {base});
    assert MapsInside(s.maps, s.reserved - {base});
  }

  lemma ApartIsNew(maps: Maps, reserved: map<nat, nat>, va: nat, size: nat)
    requires MapsInside(maps, reserved) && Apart(maps, va, size) && size > 0
    ensures va !in maps
  {
  }

  lemma MappedOk(s: State, va: nat, seg: Segment)
    requires Ok(s) && MayMap(s, va, seg)
    ensures va !in s.maps && Ok(Mapped(s, va, seg))
  {
    ApartIsNew(s.maps, s.reserved, va, seg.size);
    assert MapsInside(s.maps[va := seg], s.reserved);
    MappedDisjoint(s.maps, va, seg);
    MappedInverts(s.maps, s.mappedAt, va, seg);
    assert MapsLive(s.maps[va := seg], s.live);
  }

  lemma MappedDisjoint(maps: Maps, va: nat, seg: Segment)
    requires MapsDisjoint(maps) && Apart(maps, va, seg.size) && seg.size > 0
    requires forall v <- maps :: maps[v].size > 0
    ensures MapsDisjoint(maps[va := seg])
  {
    var maps' := maps[va := seg];
    forall v, w | v in maps' && w in maps' && v < w
      ensures v + maps'[v].size <= w
    {
    }
  }

  lemma MappedInverts(maps: Maps, mappedAt: map<nat, nat>, va: nat, seg: Segment)
    requires MapsInvert(maps, mappedAt) && va !in maps && seg.handle !in mappedAt
    ensures MapsInvert(maps[va := seg], mappedAt[seg.handle := va])
  {
  }

  lemma UnmappedOk(s: State, va: nat)
    requires Ok(s) && va in s.maps
    ensures Ok(Unmapped(s, va))
  {
    var t := Unmapped(s, va);
    assert MapsInside(t.maps, s.reserved);
    assert MapsDisjoint(t.maps);
    UnmappedInverts(s.maps, s.mappedAt, va);
    assert MapsLive(t.maps, s.live);
  }

  lemma UnmappedInverts(maps: Maps, mappedAt: map<nat, nat>, va: nat)
    requires MapsInvert(maps, mappedAt) && va in maps
    ensures MapsInvert(maps - {va}, mappedAt - {maps[va].handle})
  {
  }

  lemma GrantedOk(s: State, va: nat, size: nat, devices: set<int>)
    requires Ok(s)
    ensures Ok(Granted(s, va, size, devices))
  {
    assert Grant(s.access, va, size, devices).Keys == s.access.Keys;
  }

  // ---- translation ------------------------------------------------------------------------

  /** Virtual byte a is byte off of the memory behind handle h. */
  ghost predicate Translates(maps: Maps, a: nat, h: nat, off: nat) {
    exists v :: Holds(maps, v, a) && maps[v].handle == h && off == a - v
  }

  /** Address translation is a function, and no two addresses share a physical byte. */
  lemma TranslationInjective(s: State, a: nat, h: nat, off: nat, b: nat, k: nat, off': nat)
    requires Ok(s) && Translates(s.maps, a, h, off) && Translates(s.maps, b, k, off')
    ensures a == b <==> (h, off) == (k, off')
  {
    var v :| Holds(s.maps, v, a) && s.maps[v].handle == h && off == a - v;
    var w :| Holds(s.maps, w, b) && s.maps[w].handle == k && off' == b - w;
    assert v < w || v == w || w < v;
  }

  /** used counts the live bytes; handles from next on and addresses from top on are new. */
  ghost predicate Bounds(live: map<nat, nat>, reserved: map<nat, nat>, used: nat, next: nat, top: nat, capacity: nat) {
    && used == Sum(live) && used <= capacity
    && 0 < next && (forall h <- live :: 0 < h < next)
    && 0 < top && top % PAGE == 0 && (forall r <- reserved :: r + reserved[r] <= top)
  }

  ghost function Sane(s: State): Verdict {
    if forall k {:trigger Open(k)} :: Open(k) ==> Ok(s) then Sound else Broken
  }

  ghost predicate OpenBounds(s: Seal) {
    true
  }

  ghost function Audit(live: map<nat, nat>, reserved: map<nat, nat>, used: nat, next: nat, top: nat, capacity: nat): Verdict {
    if forall k {:trigger OpenBounds(k)} :: OpenBounds(k) ==> Bounds(live, reserved, used, next, top, capacity)
    then Sound else Broken
  }

  class Driver {
    const capacity: nat
    /** May memCreate refuse although memory is left? */
    const refuses: bool
    /** May reserving, mapping or granting access fail? */
    const faults: bool

    var used: nat
    var next: nat
    var top: nat
    ghost var s: State

    ghost predicate Valid()
      reads this
    {
      Sane(s).Sound? && Audit(s.live, s.reserved, used, next, top, capacity).Sound?
    }

    constructor (capacity: nat, refuses: bool, faults: bool)
      ensures Valid()
      ensures this.capacity == capacity && this.refuses == refuses && this.faults == faults
      ensures s == EMPTY && used == 0
    {
      this.capacity, this.refuses, this.faults := capacity, refuses, faults;
      used, next, top := 0, 1, PAGE;
      s := EMPTY;
    }

    lemma UsedIsLive()
      requires Valid()
      ensures used == Sum(s.live) && used <= capacity
    {
      assert OpenBounds(Seal);
    }

    method MemCreate(size: nat) returns (handle: Option<nat>)
      requires Valid()
      modifies this`s, this`used, this`next
      ensures Valid()
      ensures handle.None? ==> s == old(s) && used == old(used)
      ensures handle.Some? ==> 0 < handle.value && handle.value !in old(s).live
                               && s == Created(old(s), handle.value, size) && used == old(used) + size
      ensures handle.None? && !refuses ==> old(used) + size > capacity
      ensures used <= capacity
    {
      assert Open(Seal) && OpenBounds(Seal);
      var refuse: bool := *;
      if used + size > capacity || (refuses && refuse) {
        return None;
      }
      SumInsert(s.live, next, size);
      s := Created(s, next, size);
      used := used + size;
      handle := Some(next);
      next := next + 1;
    }

    /** The real call finds the size itself. */
    method MemRelease(handle: nat, size: nat)
      requires Valid() && handle in s.live && s.live[handle] == size && handle !in s.mappedAt
      modifies this`s, this`used
      ensures Valid()
      ensures s == Released(old(s), handle) && used == old(used) - size
    {
      assert Open(Seal) && OpenBounds(Seal);
      SumRemove(s.live, handle);
      s := Released(s, handle);
      used := used - size;
    }

    method MemAddressReserve(size: nat, reliable: bool) returns (base: Option<nat>)
      requires Valid() && size > 0
      modifies this`s, this`top
      ensures Valid()
      ensures base.None? ==> s == old(s)
      ensures base.Some? ==> 0 < base.value && FreeToReserve(old(s), base.value, size) && s == Reserved(old(s), base.value, size)
      ensures reliable || !faults ==> base.Some?
    {
      assert Open(Seal) && OpenBounds(Seal);
      var fail: bool := *;
      if fail && faults && !reliable {
        return None;
      }
      base := Some(top);
      ReservedKeeps(s, top, size);
      s := Reserved(s, top, size);
      top := RoundUp(top + size, PAGE);
    }

    method MemAddressFree(base: nat, ghost size: nat)
      requires Valid() && base in s.reserved && s.reserved[base] == size
      requires forall v <- s.maps :: s.maps[v].region != base
      modifies this`s
      ensures Valid()
      ensures s == Unreserved(old(s), base)
    {
      assert Open(Seal) && OpenBounds(Seal);
      UnreservedOk(s, base);
      s := Unreserved(s, base);
    }

    method MemMap(va: nat, size: nat, handle: nat, ghost region: nat, reliable: bool) returns (ok: bool)
      requires Valid() && MayMap(s, va, Segment(handle, size, region))
      modifies this`s
      ensures Valid()
      ensures s == if ok then Mapped(old(s), va, Segment(handle, size, region)) else old(s)
      ensures reliable || !faults ==> ok
    {
      assert Open(Seal);
      var fail: bool := *;
      ok := !(fail && faults && !reliable);
      if ok {
        MappedOk(s, va, Segment(handle, size, region));
        s := Mapped(s, va, Segment(handle, size, region));
      }
    }

    method MemUnmap(va: nat, ghost size: nat)
      requires Valid() && va in s.maps && s.maps[va].size == size
      modifies this`s
      ensures Valid()
      ensures s == Unmapped(old(s), va)
    {
      assert Open(Seal);
      UnmappedOk(s, va);
      s := Unmapped(s, va);
    }

    method MemSetAccess(va: nat, size: nat, devices: set<int>, reliable: bool) returns (ok: bool)
      requires Valid() && Covered(s.maps, va, size)
      modifies this`s
      ensures Valid()
      ensures s == if ok then Granted(old(s), va, size, devices) else old(s)
      ensures reliable || !faults ==> ok
    {
      assert Open(Seal);
      var fail: bool := *;
      ok := !(fail && faults && !reliable);
      if ok {
        GrantedOk(s, va, size, devices);
        s := Granted(s, va, size, devices);
      }
    }
  }
}

/** PhysicalMemoryManager: creation, caching and release of physical blocks
    (csrc/physical_memory.cc). */
module PhysicalMemory {
  import opened Common
  import opened Ordered
  import opened Pools
  import opened Supply
  import D = CudaDriver

  class PhysicalMemoryManager {
    const device: int
    const drv: D.Driver

    var small_free: seq<PhysicalBlock>
    var large_free: Buckets
    var small_in_use_bytes: int
    var small_cached_bytes: int
    var large_in_use_bytes: int
    var large_cached_bytes: int
    var purge_count: nat
    var total_purged_bytes: nat

    /** Where each live handle is. */
    ghost var place: Places

    ghost function View(): Manager
      reads this
    {
      Manager(small_free, large_free, small_in_use_bytes, small_cached_bytes, large_in_use_bytes,
              large_cached_bytes, purge_count, total_purged_bytes, place)
    }

    ghost predicate Valid()
      reads this, drv
    {
      drv.Valid() && Audit(drv.s, View()).Sound?
    }

    /** The purge statistics. */
    ghost function Purges(): (nat, nat)
      reads this`purge_count, this`total_purged_bytes
    {
      (purge_count, total_purged_bytes)
    }

    /** Bytes that small blocks can still be made of: cached ones, and what the driver has left. */
    ghost function SmallRoom(): int
      reads this`small_cached_bytes, drv`used
    {
      small_cached_bytes + drv.capacity - drv.used
    }

    constructor (device: int, drv: D.Driver)
      requires drv.Valid() && drv.s == D.EMPTY
      ensures Valid() && this.device == device && this.drv == drv
      ensures View() == Manager([], map[], 0, 0, 0, 0, 0, 0, map[])
    {
      this.device, this.drv := device, drv;
      small_free, large_free, place := [], map[], map[];
      small_in_use_bytes, small_cached_bytes, large_in_use_bytes, large_cached_bytes := 0, 0, 0, 0;
      purge_count, total_purged_bytes := 0, 0;
    }

    method CreateBlock(size: nat) returns (blk: Option<PhysicalBlock>)
      requires drv.Valid()
      modifies drv`s, drv`used, drv`next
      ensures drv.Valid()
      ensures blk.None? ==> drv.s == old(drv.s) && drv.used == old(drv.used)
      ensures blk.Some? ==> blk.value.size == size && blk.value.handle !in old(drv.s).live
                            && drv.s == D.Created(old(drv.s), blk.value.handle, size)
      ensures blk.None? && !drv.refuses ==> drv.used + size > drv.capacity
      ensures drv.used == old(drv.used) + if blk.Some? then size else 0
    {
      var h := drv.MemCreate(size);
      blk := if h.None? then None else Some(PhysicalBlock(h.value, size, device));
    }

    method AllocSmallBlock() returns (blk: Option<PhysicalBlock>)
      requires Valid()
      modifies this, drv`s, drv`used, drv`next
      ensures Valid() && Purges() == old(Purges())
      ensures blk.None? ==> drv.s == old(drv.s) && View() == old(View())
      ensures blk.None? && !drv.refuses ==> drv.used + PAGE > drv.capacity && SmallRoom() < PAGE
      ensures 0 <= SmallRoom() == old(SmallRoom()) - if blk.Some? then PAGE else 0
      ensures large_free == old(large_free)
      ensures var free := old(small_free);
              if free != []
              then blk == Some(free[|free| - 1]) && small_free == free[..|free| - 1]
                   && drv.s == old(drv.s) && drv.used == old(drv.used)
              else small_free == [] && drv.used == old(drv.used) + (if blk.Some? then PAGE else 0)
                   && (blk.Some? ==> blk.value.handle !in old(drv.s).live)
      ensures blk.Some? ==> Handed(old(drv.s), old(View()), drv.s, View(), blk.value, PAGE, SmallUse)
    {
      ghost var v := View();
      if small_free != [] {
        TakeSmallSound(drv.s, v);
        var b := small_free[|small_free| - 1];
        small_free := small_free[..|small_free| - 1];
        small_cached_bytes := small_cached_bytes - b.size;
        small_in_use_bytes := small_in_use_bytes + b.size;
        place := place[b.handle := SmallUse];
        assert View() == TakeSmall(v);
        HeldIsLive(drv.s, View());
        drv.UsedIsLive();
        return Some(b);
      }
      HeldIsLive(drv.s, v);
      CountersAreSums(drv.s, v);
      blk := CreateBlock(PAGE);
      drv.UsedIsLive();
      if blk.Some? {
        GainSmallSound(old(drv.s), v, blk.value.handle);
        small_in_use_bytes := small_in_use_bytes + blk.value.size;
        place := place[blk.value.handle := SmallUse];
        assert View() == GainSmall(v, blk.value.handle);
      }
    }

    method FreeSmallBlock(blk: PhysicalBlock)
      requires Valid() && blk.handle in place && place[blk.handle] == SmallUse && blk.size == PAGE
      requires blk.handle !in drv.s.mappedAt
      modifies this
      ensures Valid()
      ensures Returned(old(View()), View(), blk) && Purges() == old(Purges())
      ensures small_free == old(small_free) + [blk] && large_free == old(large_free)
    {
      ghost var v := View();
      PutSmallSound(drv.s, v, blk);
      small_in_use_bytes := small_in_use_bytes - blk.size;
      small_cached_bytes := small_cached_bytes + blk.size;
      place := place[blk.handle := SmallCache(|small_free|)];
      small_free := small_free + [blk];
      assert View() == PutSmall(v, blk);
    }

    /** Hand out a block of the class: the last of its bucket, or a new one if there is none. Looking
        the bucket up opens it. */
    method AllocLargeBlock(size_class: nat) returns (blk: Option<PhysicalBlock>)
      requires Valid() && LegalClass(size_class)
      modifies this, drv`s, drv`used, drv`next
      ensures Valid() && Purges() == old(Purges())
      ensures blk.None? ==> drv.s == old(drv.s) && View() == OpenBucket(old(View()), size_class)
      ensures blk.None? && !drv.refuses ==> drv.used + size_class > drv.capacity
      ensures small_free == old(small_free)
      ensures if Cached(old(large_free), size_class) > 0
              then var pool := old(large_free)[size_class];
                   && blk == Some(pool[|pool| - 1]) && large_free == old(large_free)[size_class := pool[..|pool| - 1]]
                   && drv.s == old(drv.s) && drv.used == old(drv.used)
              else large_free == old(large_free)[size_class := []]
                   && drv.used == old(drv.used) + (if blk.Some? then size_class else 0)
                   && (blk.Some? ==> blk.value.handle !in old(drv.s).live)
      ensures blk.Some? ==> Handed(old(drv.s), old(View()), drv.s, View(), blk.value, size_class, LargeUse)
    {
      OpenBucketSound(drv.s, View(), size_class);
      if size_class !in large_free {
        large_free := large_free[size_class := []];
      }
      assert View() == OpenBucket(old(View()), size_class);
      if large_free[size_class] != [] {
        var b := PopLarge(size_class);
        return Some(b);
      }
      blk := CreateLarge(size_class);
    }

    method PopLarge(c: nat) returns (b: PhysicalBlock)
      requires Valid() && c in large_free && large_free[c] != []
      modifies this
      ensures Valid() && View() == TakeLarge(old(View()), c)
      ensures b == old(large_free)[c][|old(large_free)[c]| - 1] && Handed(drv.s, old(View()), drv.s, View(), b, c, LargeUse)
    {
      ghost var v := View();
      TakeLargeSound(drv.s, v, c);
      var pool := large_free[c];
      b := pool[|pool| - 1];
      large_free := large_free[c := pool[..|pool| - 1]];
      large_cached_bytes := large_cached_bytes - b.size;
      large_in_use_bytes := large_in_use_bytes + b.size;
      place := place[b.handle := LargeUse];
      assert View() == TakeLarge(v, c);
    }

    method CreateLarge(c: nat) returns (blk: Option<PhysicalBlock>)
      requires Valid() && LegalClass(c)
      modifies this, drv`s, drv`used, drv`next
      ensures Valid()
      ensures View() == if blk.None? then old(View()) else GainLarge(old(View()), blk.value.handle, c)
      ensures blk.None? ==> drv.s == old(drv.s)
      ensures blk.None? && !drv.refuses ==> drv.used + c > drv.capacity
      ensures drv.used == old(drv.used) + if blk.Some? then c else 0
      ensures blk.Some? ==> blk.value.handle !in old(drv.s).live
                            && Handed(old(drv.s), old(View()), drv.s, View(), blk.value, c, LargeUse)
    {
      ghost var v := View();
      blk := CreateBlock(c);
      if blk.Some? {
        GainLargeSound(old(drv.s), v, blk.value.handle, c);
        large_in_use_bytes := large_in_use_bytes + blk.value.size;
        place := place[blk.value.handle := LargeUse];
        assert View() == GainLarge(v, blk.value.handle, c);
      }
    }

    method FreeLargeBlock(blk: PhysicalBlock)
      requires Valid() && blk.handle in place && place[blk.handle] == LargeUse
      requires blk.handle in drv.s.live && blk.size == drv.s.live[blk.handle] && blk.handle !in drv.s.mappedAt
      modifies this
      ensures Valid()
      ensures Returned(old(View()), View(), blk) && Purges() == old(Purges())
      ensures small_free == old(small_free)
      ensures large_free == old(large_free)[blk.size := (if blk.size in old(large_free) then old(large_free)[blk.size] else []) + [blk]]
    {
      ghost var v := OpenBucket(View(), blk.size);
      LargeUseIsLegal(drv.s, View(), blk.handle);
      OpenBucketSound(drv.s, View(), blk.size);
      PutLargeSound(drv.s, v, blk);
      if blk.size !in large_free {
        large_free := large_free[blk.size := []];
      }
      assert View() == v;
      large_in_use_bytes := large_in_use_bytes - blk.size;
      large_cached_bytes := large_cached_bytes + blk.size;
      place := place[blk.handle := LargeCache(blk.size, |large_free[blk.size]|)];
      large_free := large_free[blk.size := large_free[blk.size] + [blk]];
      assert View() == PutLarge(v, blk);
    }

    method DestroyBlock(blk: PhysicalBlock)
      requires drv.Valid() && blk.handle in drv.s.live && drv.s.live[blk.handle] == blk.size
      requires blk.handle !in drv.s.mappedAt
      modifies drv`s, drv`used
      ensures drv.Valid() && drv.s == D.Released(old(drv.s), blk.handle)
    {
      drv.MemRelease(blk.handle, blk.size);
    }

    /** Phase 2 of purge: release the collected blocks, outside the lock in the source. */
    method DestroyAll(to_destroy: seq<PhysicalBlock>, ghost bytes: int)
      requires drv.Valid() && AuditDoomed(drv.s, View(), to_destroy, 0, bytes).Sound?
      modifies this`place, drv`s, drv`used
      ensures Valid()
      ensures var gone := DoomedHandles(old(place));
              place == old(place) - gone && drv.s == old(drv.s).(live := old(drv.s).live - gone)
    {
      ghost var d0, v0, left := drv.s, View(), bytes;
      ghost var gone: set<nat> := {};
      DestroyStart(d0, v0, to_destroy, bytes);
      for i := 0 to |to_destroy|
        invariant drv.Valid() && Destroying(d0, v0, drv.s, View(), to_destroy, i, left, gone).Sound?
      {
        left, gone := DestroyOne(d0, v0, to_destroy, i, left, gone);
      }
      Destroyed(d0, v0, drv.s, View(), to_destroy, left, gone);
    }

    method DestroyOne(ghost d0: D.State, ghost v0: Manager, to_destroy: seq<PhysicalBlock>, i: nat, ghost bytes: int,
                      ghost before: set<nat>) returns (ghost left: int, ghost gone: set<nat>)
      requires drv.Valid() && Destroying(d0, v0, drv.s, View(), to_destroy, i, bytes, before).Sound? && i < |to_destroy|
      modifies this`place, drv`s, drv`used
      ensures drv.Valid() && Destroying(d0, v0, drv.s, View(), to_destroy, i + 1, left, gone).Sound?
    {
      var blk := to_destroy[i];
      left, gone := bytes - blk.size, before + {blk.handle};
      DestroyStep(d0, v0, drv.s, View(), to_destroy, i, bytes, before, blk, i + 1, left, gone);
      ghost var v := View();
      DestroyBlock(blk);
      place := place - {blk.handle};
      assert View() == Destroy(v, blk.handle);
    }

    /** Release cached blocks, largest first, until min_bytes are freed or nothing is cached. */
    method Purge(min_bytes: nat) returns (freed: nat)
      requires Valid()
      modifies this, drv`s, drv`used
      ensures Valid()
      ensures Purged(old(drv.s), old(View()), drv.s, View(), min_bytes, freed)
      ensures if min_bytes == 0 then View() == old(View()) else forall c <- large_free :: large_free[c] != []
    {
      if min_bytes == 0 {
        PurgeNothing(drv.s, View());
        return 0;
      }
      ghost var v0 := View();
      var to_destroy: seq<PhysicalBlock>;
      to_destroy, freed := CollectLargeBlocks(min_bytes);
      DropEmptyBuckets(min_bytes, to_destroy, freed, v0);
      to_destroy, freed := CollectSmallBlocks(min_bytes, to_destroy, freed, v0);
      ghost var v := View();
      if freed > 0 {
        purge_count := purge_count + 1;
        total_purged_bytes := total_purged_bytes + freed;
      }
      CountPurge(drv.s, v0, v, to_destroy, freed, min_bytes, View());
      PurgeDone(drv.s, v0, v, to_destroy, freed, min_bytes, View().(place := place - DoomedHandles(place)));
      DestroyAll(to_destroy, freed);
    }

    /** Phase 1a of purge: collect large blocks, largest size class first. */
    method CollectLargeBlocks(min_bytes: nat) returns (to_destroy: seq<PhysicalBlock>, freed: nat)
      requires Valid()
      modifies this
      ensures Collecting(drv.s, old(View()), View(), to_destroy, freed, min_bytes).Sound?
      ensures freed >= min_bytes || NoLarge(large_free)
    {
      to_destroy, freed := [], 0;
      AuditIsUndoomed(drv.s, View(), min_bytes);
      var todo := large_free.Keys;
      while todo != {} && freed < min_bytes
        invariant Collecting(drv.s, old(View()), View(), to_destroy, freed, min_bytes).Sound?
        invariant todo <= large_free.Keys
        invariant freed < min_bytes ==> EmptyOutside(large_free, todo)
        decreases todo
      {
        LargestExists(todo);
        var c :| c in todo && forall k <- todo :: k <= c;
        to_destroy, freed := CollectBucket(min_bytes, c, todo, to_destroy, freed, old(View()));
        todo := todo - {c};
      }
    }

    /** The inner loop of phase 1a: empty the largest bucket left, as far as needed. */
    method CollectBucket(min_bytes: nat, c: nat, ghost todo: set<nat>, doomed: seq<PhysicalBlock>, bytes: nat,
                         ghost start: Manager) returns (to_destroy: seq<PhysicalBlock>, freed: nat)
      requires Collecting(drv.s, start, View(), doomed, bytes, min_bytes).Sound? && bytes < min_bytes
      requires c in todo && todo <= large_free.Keys && EmptyOutside(large_free, todo) && forall k <- todo :: k <= c
      modifies this
      ensures Collecting(drv.s, start, View(), to_destroy, freed, min_bytes).Sound?
      ensures large_free.Keys == old(large_free).Keys
      ensures freed < min_bytes ==> EmptyOutside(large_free, todo - {c})
    {
      to_destroy, freed := doomed, bytes;
      while large_free[c] != [] && freed < min_bytes
        invariant c in large_free && large_free.Keys == old(large_free).Keys
        invariant Collecting(drv.s, start, View(), to_destroy, freed, min_bytes).Sound?
        invariant EmptyOutside(large_free, todo)
        decreases |large_free[c]|
      {
        to_destroy, freed := CollectOne(min_bytes, c, to_destroy, freed, start);
      }
    }

    method CollectOne(ghost min_bytes: nat, c: nat, doomed: seq<PhysicalBlock>, bytes: nat, ghost start: Manager)
        returns (to_destroy: seq<PhysicalBlock>, freed: nat)
      requires Collecting(drv.s, start, View(), doomed, bytes, min_bytes).Sound? && bytes < min_bytes
      requires c in large_free && large_free[c] != [] && forall k <- large_free :: k > c ==> large_free[k] == []
      modifies this
      ensures Collecting(drv.s, start, View(), to_destroy, freed, min_bytes).Sound?
      ensures large_free == old(large_free)[c := old(large_free)[c][..|old(large_free)[c]| - 1]]
    {
      ghost var v := View();
      BucketBlockSize(drv.s, start, v, doomed, bytes, min_bytes, c);
      var pool := large_free[c];
      var blk := pool[|pool| - 1];
      large_free := large_free[c := pool[..|pool| - 1]];
      large_cached_bytes := large_cached_bytes - blk.size;
      place := place[blk.handle := Doomed(|doomed|)];
      freed := bytes + blk.size;
      to_destroy := doomed + [blk];
      assert View() == DoomLarge(v, c, |doomed|);
      CollectLarge(drv.s, start, v, doomed, bytes, min_bytes, c, blk, View(), to_destroy, freed);
    }

    method DropEmptyBuckets(ghost min_bytes: nat, ghost doomed: seq<PhysicalBlock>, ghost freed: nat, ghost start: Manager)
      requires Collecting(drv.s, start, View(), doomed, freed, min_bytes).Sound?
      modifies this`large_free
      ensures Collecting(drv.s, start, View(), doomed, freed, min_bytes).Sound?
      ensures large_free == map k | k in old(large_free) && old(large_free)[k] != [] :: old(large_free)[k]
    {
      var keys := large_free.Keys;
      while keys != {}
        invariant keys <= large_free.Keys
        invariant Collecting(drv.s, start, View(), doomed, freed, min_bytes).Sound?
        invariant forall k <- large_free :: k in old(large_free) && large_free[k] == old(large_free)[k]
        invariant forall k <- old(large_free) :: k in keys || (k in large_free <==> old(large_free)[k] != [])
        decreases keys
      {
        var c :| c in keys;
        if large_free[c] == [] {
          CloseBucket(drv.s, start, View(), doomed, freed, min_bytes, c);
          ghost var v := View();
          large_free := large_free - {c};
          assert View() == v.(large_free := v.large_free - {c});
        }
        keys := keys - {c};
      }
    }

    /** Phase 1b of purge: if that is still not enough, small blocks. */
    method CollectSmallBlocks(min_bytes: nat, doomed: seq<PhysicalBlock>, bytes: nat, ghost start: Manager)
        returns (to_destroy: seq<PhysicalBlock>, freed: nat)
      requires Collecting(drv.s, start, View(), doomed, bytes, min_bytes).Sound?
      requires bytes >= min_bytes || NoLarge(large_free)
      modifies this
      ensures Collecting(drv.s, start, View(), to_destroy, freed, min_bytes).Sound?
      ensures freed >= min_bytes || (small_free == [] && NoLarge(large_free))
      ensures large_free == old(large_free)
    {
      to_destroy, freed := doomed, bytes;
      while small_free != [] && freed < min_bytes
        invariant Collecting(drv.s, start, View(), to_destroy, freed, min_bytes).Sound? && large_free == old(large_free)
        invariant freed >= min_bytes || NoLarge(large_free)
        decreases |small_free|
      {
        to_destroy, freed := CollectOneSmall(min_bytes, to_destroy, freed, start);
      }
    }

    method CollectOneSmall(ghost min_bytes: nat, doomed: seq<PhysicalBlock>, bytes: nat, ghost start: Manager)
        returns (to_destroy: seq<PhysicalBlock>, freed: nat)
      requires Collecting(drv.s, start, View(), doomed, bytes, min_bytes).Sound? && bytes < min_bytes
      requires small_free != [] && NoLarge(large_free)
      modifies this
      ensures Collecting(drv.s, start, View(), to_destroy, freed, min_bytes).Sound?
      ensures large_free == old(large_free) && |small_free| == |old(small_free)| - 1
    {
      ghost var v := View();
      var blk := small_free[|small_free| - 1];
      small_free := small_free[..|small_free| - 1];
      small_cached_bytes := small_cached_bytes - blk.size;
      place := place[blk.handle := Doomed(|doomed|)];
      freed := bytes + blk.size;
      to_destroy := doomed + [blk];
      assert View() == DoomSmall(v, |doomed|);
      CollectSmall(drv.s, start, v, doomed, bytes, min_bytes, blk, View(), to_destroy, freed);
    }

    /** Release every cached block. */
    method Trim()
      requires Valid()
      modifies this, drv`s, drv`used
      ensures Valid()
      ensures Trimmed(old(drv.s), old(View()), drv.s, View()) && Purges() == old(Purges())
      ensures small_free == [] && large_free == map[]
    {
      ghost var gone := TrimSmallBlocks();
      gone := TrimLargeBlocks(old(drv.s), old(View()), gone);
      TrimDone(old(drv.s), old(View()), drv.s, View(), gone);
    }

    method TrimSmallBlocks() returns (ghost gone: set<nat>)
      requires Valid()
      modifies this, drv`s, drv`used
      ensures drv.Valid() && Trimming(old(drv.s), old(View()), drv.s, View(), gone).Sound? && small_free == []
    {
      ghost var d0, v0 := drv.s, View();
      gone := {};
      TrimStart(d0, v0);
      while small_free != []
        invariant drv.Valid() && Trimming(d0, v0, drv.s, View(), gone).Sound?
        decreases |small_free|
      {
        ghost var v := View();
        var blk := small_free[|small_free| - 1];
        TrimSmall(d0, v0, drv.s, v, gone, blk);
        DestroyBlock(blk);
        small_free := small_free[..|small_free| - 1];
        small_cached_bytes := small_cached_bytes - blk.size;
        place := place[blk.handle := Doomed(0)] - {blk.handle};
        assert View() == DropSmall(v);
        gone := gone + {blk.handle};
      }
    }

    method TrimLargeBlocks(ghost d0: D.State, ghost v0: Manager, ghost before: set<nat>) returns (ghost gone: set<nat>)
      requires drv.Valid() && Trimming(d0, v0, drv.s, View(), before).Sound? && small_free == []
      modifies this, drv`s, drv`used
      ensures drv.Valid() && Trimming(d0, v0, drv.s, View(), gone).Sound? && small_free == [] && large_free == map[]
    {
      gone := before;
      while large_free != map[]
        invariant drv.Valid() && Trimming(d0, v0, drv.s, View(), gone).Sound? && small_free == []
        decreases large_free.Keys
      {
        var c :| c in large_free;
        gone := TrimPool(d0, v0, gone, c);
        TrimBucket(d0, v0, drv.s, View(), gone, c);
        ghost var v := View();
        large_free := large_free - {c};
        assert View() == v.(large_free := v.large_free - {c});
      }
    }

    method TrimPool(ghost d0: D.State, ghost v0: Manager, ghost before: set<nat>, c: nat) returns (ghost gone: set<nat>)
      requires drv.Valid() && Trimming(d0, v0, drv.s, View(), before).Sound? && small_free == [] && c in large_free
      modifies this, drv`s, drv`used
      ensures drv.Valid() && Trimming(d0, v0, drv.s, View(), gone).Sound? && small_free == []
      ensures large_free == old(large_free)[c := []]
    {
      gone := before;
      while large_free[c] != []
        invariant c in large_free && large_free == old(large_free)[c := large_free[c]] && small_free == []
        invariant drv.Valid() && Trimming(d0, v0, drv.s, View(), gone).Sound?
        decreases |large_free[c]|
      {
        ghost var v := View();
        var pool := large_free[c];
        var blk := pool[|pool| - 1];
        TrimLarge(d0, v0, drv.s, v, gone, c, blk);
        DestroyBlock(blk);
        large_free := large_free[c := pool[..|pool| - 1]];
        large_cached_bytes := large_cached_bytes - blk.size;
        place := place[blk.handle := Doomed(0)] - {blk.handle};
        assert View() == DropLarge(v, c);
        gone := gone + {blk.handle};
      }
    }

    /** Bytes currently held, in use or cached: exactly what the driver has handed out. */
    method TotalPhysicalAllocated() returns (bytes: int)
      requires Valid()
      ensures bytes == drv.used
    {
      bytes := small_in_use_bytes + small_cached_bytes + large_in_use_bytes + large_cached_bytes;
      HeldIsLive(drv.s, View());
      drv.UsedIsLive();
    }
  }
}

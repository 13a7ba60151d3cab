/** Where every physical block is: the ownership bookkeeping behind PhysicalMemoryManager
    (csrc/physical_memory.cc). */
module Pools {
  import opened Common
  import opened Sums
  import D = CudaDriver

  /** The one place a live handle sits in. A cached block is known by its position in its free
      list; Doomed blocks have left the free lists and wait to be released to the driver. */
  datatype Place = SmallCache(index: nat) | SmallUse | LargeCache(class_: nat, index: nat) | LargeUse | Doomed(index: nat)

  datatype Pool = SmallCached | SmallInUse | LargeCached | LargeInUse | Condemned

  function PoolOf(p: Place): Pool {
    match p
    case SmallCache(_) => SmallCached
    case SmallUse => SmallInUse
    case LargeCache(_, _) => LargeCached
    case LargeUse => LargeInUse
    case Doomed(_) => Condemned
  }

  type Places = map<nat, Place>

  type Buckets = map<nat, seq<PhysicalBlock>>

  // ---- bytes per pool -------------------------------------------------------------------

  ghost function Share(live: map<nat, nat>, place: Places, h: nat, k: Pool): nat
    requires h in live && h in place
  {
    if PoolOf(place[h]) == k then live[h] else 0
  }

  /** The bytes of pool k: every live handle, booked where it sits. */
  ghost function Bytes(live: map<nat, nat>, place: Places, k: Pool): nat
    requires live.Keys <= place.Keys
    decreases |live|
  {
    if live == map[] then 0
    else
      var h :| h in live;
      Bytes(live - {h}, place, k) + Share(live, place, h, k)
  }

  /** The order of booking does not matter. */
  lemma {:induction false} BytesRemove(live: map<nat, nat>, place: Places, h: nat, k: Pool)
    requires live.Keys <= place.Keys && h in live
    ensures Bytes(live, place, k) == Share(live, place, h, k) + Bytes(live - {h}, place, k)
    decreases |live|
  {
    var j :| j in live && Bytes(live, place, k) == Bytes(live - {j}, place, k) + Share(live, place, j, k);
    if j != h {
      BytesRemove(live - {j}, place, h, k);
      BytesRemove(live - {h}, place, j, k);
      assert live - {j} - {h} == live - {h} - {j};
      assert Share(live - {j}, place, h, k) == Share(live, place, h, k);
      assert Share(live - {h}, place, j, k) == Share(live, place, j, k);
    }
  }

  /** Only the places of live handles matter. */
  lemma {:induction false} BytesDepend(live: map<nat, nat>, place: Places, place': Places, k: Pool)
    requires live.Keys <= place.Keys && live.Keys <= place'.Keys
    requires forall h <- live :: place[h] == place'[h]
    ensures Bytes(live, place, k) == Bytes(live, place', k)
    decreases |live|
  {
    if live != map[] {
      var h :| h in live;
      BytesRemove(live, place, h, k);
      BytesRemove(live, place', h, k);
      BytesDepend(live - {h}, place, place', k);
    }
  }

  lemma BytesMoved(live: map<nat, nat>, place: Places, h: nat, p: Place, k: Pool)
    requires live.Keys <= place.Keys && h in live
    ensures Bytes(live, place[h := p], k)
            == Bytes(live, place, k) - Share(live, place, h, k) + if PoolOf(p) == k then live[h] else 0
  {
    BytesRemove(live, place, h, k);
    BytesRemove(live, place[h := p], h, k);
    BytesDepend(live - {h}, place, place[h := p], k);
  }

  lemma BytesCreated(live: map<nat, nat>, place: Places, h: nat, size: nat, p: Place, k: Pool)
    requires live.Keys <= place.Keys && h !in live
    ensures Bytes(live[h := size], place[h := p], k) == Bytes(live, place, k) + if PoolOf(p) == k then size else 0
  {
    BytesRemove(live[h := size], place[h := p], h, k);
    assert live[h := size] - {h} == live;
    BytesDepend(live, place, place[h := p], k);
  }

  lemma BytesReleased(live: map<nat, nat>, place: Places, h: nat, k: Pool)
    requires live.Keys <= place.Keys && h in live
    ensures Bytes(live - {h}, place - {h}, k) == Bytes(live, place, k) - Share(live, place, h, k)
  {
    BytesRemove(live, place, h, k);
    BytesDepend(live - {h}, place, place - {h}, k);
  }

  /** The driver's live bytes are the bytes of the five pools together. */
  lemma {:induction false} BytesTotal(live: map<nat, nat>, place: Places)
    requires live.Keys <= place.Keys
    ensures Sum(live) == Bytes(live, place, SmallCached) + Bytes(live, place, SmallInUse)
                         + Bytes(live, place, LargeCached) + Bytes(live, place, LargeInUse)
                         + Bytes(live, place, Condemned)
    decreases |live|
  {
    if live != map[] {
      var h :| h in live;
      SumRemove(live, h);
      BytesTotal(live - {h}, place);
      BytesRemove(live, place, h, SmallCached);
      BytesRemove(live, place, h, SmallInUse);
      BytesRemove(live, place, h, LargeCached);
      BytesRemove(live, place, h, LargeInUse);
      BytesRemove(live, place, h, Condemned);
    }
  }

  ghost function HandlesIn(place: Places, k: Pool): set<nat> {
    set h | h in place && PoolOf(place[h]) == k
  }

  /** The bytes of a pool are the sum of the sizes of the handles in it. */
  lemma {:induction false} BytesAreSum(live: map<nat, nat>, place: Places, k: Pool)
    requires live.Keys <= place.Keys
    ensures Bytes(live, place, k) == SumOver(live, HandlesIn(place, k))
    decreases |live|
  {
    if live == map[] {
      assert Restrict(live, HandlesIn(place, k)) == map[];
    } else {
      var h :| h in live;
      BytesRemove(live, place, h, k);
      BytesAreSum(live - {h}, place, k);
      SumOverWithout(live, HandlesIn(place, k), h);
    }
  }

  /** The four byte counters are the sums over the blocks they stand for. */
  ghost predicate Counted(live: map<nat, nat>, place: Places, sc: int, su: int, lc: int, lu: int, condemned: int)
    requires live.Keys <= place.Keys
  {
    && sc == Bytes(live, place, SmallCached)
    && su == Bytes(live, place, SmallInUse)
    && lc == Bytes(live, place, LargeCached)
    && lu == Bytes(live, place, LargeInUse)
    && condemned == Bytes(live, place, Condemned)
  }

  lemma CountedMoved(live: map<nat, nat>, place: Places, sc: int, su: int, lc: int, lu: int, cd: int, h: nat, p: Place)
    requires live.Keys <= place.Keys && Counted(live, place, sc, su, lc, lu, cd) && h in live
    ensures Counted(live, place[h := p],
                    sc + Moved(place[h], p, live[h], SmallCached), su + Moved(place[h], p, live[h], SmallInUse),
                    lc + Moved(place[h], p, live[h], LargeCached), lu + Moved(place[h], p, live[h], LargeInUse),
                    cd + Moved(place[h], p, live[h], Condemned))
  {
    BytesMoved(live, place, h, p, SmallCached);
    BytesMoved(live, place, h, p, SmallInUse);
    BytesMoved(live, place, h, p, LargeCached);
    BytesMoved(live, place, h, p, LargeInUse);
    BytesMoved(live, place, h, p, Condemned);
  }

  ghost function Moved(from: Place, to: Place, n: nat, k: Pool): int {
    (if PoolOf(to) == k then n else 0) - (if PoolOf(from) == k then n else 0)
  }

  lemma CountedCreated(live: map<nat, nat>, place: Places, sc: int, su: int, lc: int, lu: int, cd: int, h: nat, size: nat, p: Place)
    requires live.Keys <= place.Keys && Counted(live, place, sc, su, lc, lu, cd) && h !in live
    requires p == SmallUse || p == LargeUse
    ensures Counted(live[h := size], place[h := p], sc, if p == SmallUse then su + size else su, lc,
                    if p == LargeUse then lu + size else lu, cd)
  {
    BytesCreated(live, place, h, size, p, SmallCached);
    BytesCreated(live, place, h, size, p, SmallInUse);
    BytesCreated(live, place, h, size, p, LargeCached);
    BytesCreated(live, place, h, size, p, LargeInUse);
    BytesCreated(live, place, h, size, p, Condemned);
  }

  lemma CountedReleased(live: map<nat, nat>, place: Places, sc: int, su: int, lc: int, lu: int, cd: int, h: nat)
    requires live.Keys <= place.Keys && Counted(live, place, sc, su, lc, lu, cd) && h in live && place[h].Doomed?
    ensures Counted(live - {h}, place - {h}, sc, su, lc, lu, cd - live[h])
  {
    BytesReleased(live, place, h, SmallCached);
    BytesReleased(live, place, h, SmallInUse);
    BytesReleased(live, place, h, LargeCached);
    BytesReleased(live, place, h, LargeInUse);
    BytesReleased(live, place, h, Condemned);
  }

  // ---- the free lists and the places agree ----------------------------------------------

  ghost predicate Sits(live: map<nat, nat>, place: Places, b: PhysicalBlock, size: nat, p: Place) {
    b.size == size && b.handle in place && place[b.handle] == p && b.handle in live && live[b.handle] == size
  }

  ghost predicate SmallListed(live: map<nat, nat>, place: Places, small: seq<PhysicalBlock>) {
    forall i :: 0 <= i < |small| ==> Sits(live, place, small[i], PAGE, SmallCache(i))
  }

  ghost predicate LargeListed(live: map<nat, nat>, place: Places, large: Buckets) {
    forall c <- large :: LegalClass(c) && forall i :: 0 <= i < |large[c]| ==> Sits(live, place, large[c][i], c, LargeCache(c, i))
  }

  ghost predicate DoomedListed(live: map<nat, nat>, place: Places, doomed: seq<PhysicalBlock>, from: nat) {
    forall i :: from <= i < |doomed| ==> Sits(live, place, doomed[i], doomed[i].size, Doomed(i))
  }

  /** Where a handle is said to be, it is. */
  ghost predicate Found(live: map<nat, nat>, h: nat, p: Place, small: seq<PhysicalBlock>, large: Buckets,
                        doomed: seq<PhysicalBlock>, from: nat)
    requires h in live
  {
    match p
    case SmallCache(i) => i < |small| && small[i].handle == h
    case SmallUse => live[h] == PAGE
    case LargeCache(c, i) => c in large && i < |large[c]| && large[c][i].handle == h
    case LargeUse => LegalClass(live[h])
    case Doomed(i) => from <= i < |doomed| && doomed[i].handle == h
  }

  ghost predicate AllFound(live: map<nat, nat>, place: Places, small: seq<PhysicalBlock>, large: Buckets,
                           doomed: seq<PhysicalBlock>, from: nat)
  {
    place.Keys == live.Keys && forall h <- place :: Found(live, h, place[h], small, large, doomed, from)
  }

  /** Only blocks in use are mapped. */
  ghost predicate OnlyUsedMapped(mapped: set<nat>, place: Places) {
    forall h <- mapped :: h in place && (place[h].SmallUse? || place[h].LargeUse?)
  }

  ghost predicate PoolsOk(live: map<nat, nat>, mapped: set<nat>, place: Places, small: seq<PhysicalBlock>,
                          large: Buckets, doomed: seq<PhysicalBlock>, from: nat)
  {
    && AllFound(live, place, small, large, doomed, from)
    && SmallListed(live, place, small)
    && LargeListed(live, place, large)
    && DoomedListed(live, place, doomed, from)
    && OnlyUsedMapped(mapped, place)
  }

  // ---- the moves --------------------------------------------------------------------------

  lemma SmallTaken(live: map<nat, nat>, mapped: set<nat>, place: Places, small: seq<PhysicalBlock>, large: Buckets,
                   doomed: seq<PhysicalBlock>, from: nat)
    requires PoolsOk(live, mapped, place, small, large, doomed, from) && small != []
    ensures var h := small[|small| - 1].handle;
            h !in mapped && PoolsOk(live, mapped, place[h := SmallUse], small[..|small| - 1], large, doomed, from)
  {
    var n := |small| - 1;
    assert Sits(live, place, small[n], PAGE, SmallCache(n));
  }

  lemma SmallDoomed(live: map<nat, nat>, mapped: set<nat>, place: Places, small: seq<PhysicalBlock>, large: Buckets,
                    doomed: seq<PhysicalBlock>)
    requires PoolsOk(live, mapped, place, small, large, doomed, 0) && small != []
    ensures var b := small[|small| - 1];
            PoolsOk(live, mapped, place[b.handle := Doomed(|doomed|)], small[..|small| - 1], large, doomed + [b], 0)
  {
    var n := |small| - 1;
    assert Sits(live, place, small[n], PAGE, SmallCache(n));
  }

  lemma SmallPut(live: map<nat, nat>, mapped: set<nat>, place: Places, small: seq<PhysicalBlock>, large: Buckets,
                 doomed: seq<PhysicalBlock>, from: nat, b: PhysicalBlock)
    requires PoolsOk(live, mapped, place, small, large, doomed, from)
    requires b.handle in place && place[b.handle] == SmallUse && b.size == PAGE && b.handle !in mapped
    ensures PoolsOk(live, mapped, place[b.handle := SmallCache(|small|)], small + [b], large, doomed, from)
  {
  }

  lemma LargeTaken(live: map<nat, nat>, mapped: set<nat>, place: Places, small: seq<PhysicalBlock>, large: Buckets,
                   doomed: seq<PhysicalBlock>, from: nat, c: nat)
    requires PoolsOk(live, mapped, place, small, large, doomed, from) && c in large && large[c] != []
    ensures var h := large[c][|large[c]| - 1].handle;
            h !in mapped && PoolsOk(live, mapped, place[h := LargeUse], small,
                                    large[c := large[c][..|large[c]| - 1]], doomed, from)
  {
    var n := |large[c]| - 1;
    assert Sits(live, place, large[c][n], c, LargeCache(c, n));
  }

  lemma LargeDoomed(live: map<nat, nat>, mapped: set<nat>, place: Places, small: seq<PhysicalBlock>, large: Buckets,
                    doomed: seq<PhysicalBlock>, c: nat)
    requires PoolsOk(live, mapped, place, small, large, doomed, 0) && c in large && large[c] != []
    ensures var b := large[c][|large[c]| - 1];
            PoolsOk(live, mapped, place[b.handle := Doomed(|doomed|)], small,
                    large[c := large[c][..|large[c]| - 1]], doomed + [b], 0)
  {
    var n := |large[c]| - 1;
    assert Sits(live, place, large[c][n], c, LargeCache(c, n));
  }

  lemma LargePut(live: map<nat, nat>, mapped: set<nat>, place: Places, small: seq<PhysicalBlock>, large: Buckets,
                 doomed: seq<PhysicalBlock>, from: nat, b: PhysicalBlock)
    requires PoolsOk(live, mapped, place, small, large, doomed, from) && b.size in large
    requires b.handle in place && place[b.handle] == LargeUse && live[b.handle] == b.size && b.handle !in mapped
    ensures PoolsOk(live, mapped, place[b.handle := LargeCache(b.size, |large[b.size]|)], small,
                    large[b.size := large[b.size] + [b]], doomed, from)
  {
  }

  lemma BucketOpened(live: map<nat, nat>, mapped: set<nat>, place: Places, small: seq<PhysicalBlock>, large: Buckets,
                     doomed: seq<PhysicalBlock>, from: nat, c: nat)
    requires PoolsOk(live, mapped, place, small, large, doomed, from) && LegalClass(c) && c !in large
    ensures PoolsOk(live, mapped, place, small, large[c := []], doomed, from)
  {
  }

  lemma BlockCreated(live: map<nat, nat>, mapped: set<nat>, place: Places, small: seq<PhysicalBlock>, large: Buckets,
                     doomed: seq<PhysicalBlock>, from: nat, h: nat, size: nat, p: Place)
    requires PoolsOk(live, mapped, place, small, large, doomed, from) && h !in live
    requires (p == SmallUse && size == PAGE) || (p == LargeUse && LegalClass(size))
    ensures h !in mapped && PoolsOk(live[h := size], mapped, place[h := p], small, large, doomed, from)
  {
  }

  lemma BlockDestroyed(live: map<nat, nat>, mapped: set<nat>, place: Places, small: seq<PhysicalBlock>, large: Buckets,
                       doomed: seq<PhysicalBlock>, from: nat)
    requires PoolsOk(live, mapped, place, small, large, doomed, from) && from < |doomed|
    ensures var h := doomed[from].handle;
            h !in mapped && PoolsOk(live - {h}, mapped, place - {h}, small, large, doomed, from + 1)
  {
    assert Sits(live, place, doomed[from], doomed[from].size, Doomed(from));
  }

  // ---- the manager's state and its steps ---------------------------------------------------

  /** The fields of a PhysicalMemoryManager as one value. */
  datatype Manager = Manager(small_free: seq<PhysicalBlock>, large_free: Buckets,
                             small_in_use_bytes: int, small_cached_bytes: int,
                             large_in_use_bytes: int, large_cached_bytes: int,
                             purge_count: nat, total_purged_bytes: nat, place: Places)

  /** The invariant between the manager and the driver, while doomed[from..] awaits release: the
      places are right and the counters are the sums over the blocks they stand for. */
  ghost function AuditDoomed(d: D.State, v: Manager, doomed: seq<PhysicalBlock>, from: nat, condemned: int): Verdict {
    if forall s {:trigger Open(s)} :: Open(s) ==>
         && PoolsOk(d.live, d.mappedAt.Keys, v.place, v.small_free, v.large_free, doomed, from)
         && Counted(d.live, v.place, v.small_cached_bytes, v.small_in_use_bytes, v.large_cached_bytes,
                    v.large_in_use_bytes, condemned)
    then Sound else Broken
  }

  ghost function Audit(d: D.State, v: Manager): Verdict {
    AuditDoomed(d, v, [], 0, 0)
  }

  /** Block b has been handed out: it came from its own free list or was newly created, and nothing
      else changed hands. */
  ghost predicate Handed(d: D.State, v: Manager, d': D.State, v': Manager, b: PhysicalBlock, size: nat, p: Place) {
    && b.size == size && v'.place == v.place[b.handle := p]
    && b.handle in d'.live && d'.live[b.handle] == size && b.handle !in d.mappedAt
    && (if b.handle in d.live
        then d' == d && b.handle in v.place
             && PoolOf(v.place[b.handle]) == (if p == SmallUse then SmallCached else LargeCached)
        else d' == D.Created(d, b.handle, size) && b.handle !in v.place)
    && v'.small_in_use_bytes == v.small_in_use_bytes + (if p == SmallUse then size else 0)
    && v'.large_in_use_bytes == v.large_in_use_bytes + (if p == SmallUse then 0 else size)
    && v'.purge_count == v.purge_count && v'.total_purged_bytes == v.total_purged_bytes
  }

  /** Block b has gone back to its own free list, and nothing else changed hands. */
  ghost predicate Returned(v: Manager, v': Manager, b: PhysicalBlock) {
    && b.handle in v.place && b.handle in v'.place && v'.place == v.place[b.handle := v'.place[b.handle]]
    && PoolOf(v'.place[b.handle]) == (if v.place[b.handle] == SmallUse then SmallCached else LargeCached)
    && v'.small_in_use_bytes == v.small_in_use_bytes - (if v.place[b.handle] == SmallUse then b.size else 0)
    && v'.large_in_use_bytes == v.large_in_use_bytes - (if v.place[b.handle] == SmallUse then 0 else b.size)
    && v'.purge_count == v.purge_count && v'.total_purged_bytes == v.total_purged_bytes
  }

  ghost function TakeSmall(v: Manager): Manager
    requires v.small_free != []
  {
    var b := v.small_free[|v.small_free| - 1];
    v.(small_free := v.small_free[..|v.small_free| - 1], small_cached_bytes := v.small_cached_bytes - b.size,
       small_in_use_bytes := v.small_in_use_bytes + b.size, place := v.place[b.handle := SmallUse])
  }

  lemma TakeSmallSound(d: D.State, v: Manager)
    requires Audit(d, v).Sound? && v.small_free != []
    ensures Audit(d, TakeSmall(v)).Sound?
    ensures Handed(d, v, d, TakeSmall(v), v.small_free[|v.small_free| - 1], PAGE, SmallUse)
    ensures v.small_free[|v.small_free| - 1].size == PAGE
  {
    assert Open(Seal);
    var b := v.small_free[|v.small_free| - 1];
    assert Sits(d.live, v.place, b, PAGE, SmallCache(|v.small_free| - 1));
    SmallTaken(d.live, d.mappedAt.Keys, v.place, v.small_free, v.large_free, [], 0);
    CountedMoved(d.live, v.place, v.small_cached_bytes, v.small_in_use_bytes, v.large_cached_bytes, v.large_in_use_bytes, 0,
                 b.handle, SmallUse);
  }

  ghost function GainSmall(v: Manager, h: nat): Manager {
    v.(small_in_use_bytes := v.small_in_use_bytes + PAGE, place := v.place[h := SmallUse])
  }

  lemma GainSmallSound(d: D.State, v: Manager, h: nat)
    requires Audit(d, v).Sound? && h !in d.live
    ensures Audit(D.Created(d, h, PAGE), GainSmall(v, h)).Sound?
    ensures h !in v.place && h !in d.mappedAt
  {
    assert Open(Seal);
    BlockCreated(d.live, d.mappedAt.Keys, v.place, v.small_free, v.large_free, [], 0, h, PAGE, SmallUse);
    CountedCreated(d.live, v.place, v.small_cached_bytes, v.small_in_use_bytes, v.large_cached_bytes, v.large_in_use_bytes, 0, h, PAGE, SmallUse);
  }

  ghost function PutSmall(v: Manager, b: PhysicalBlock): Manager {
    v.(small_free := v.small_free + [b], small_cached_bytes := v.small_cached_bytes + b.size,
       small_in_use_bytes := v.small_in_use_bytes - b.size, place := v.place[b.handle := SmallCache(|v.small_free|)])
  }

  lemma PutSmallSound(d: D.State, v: Manager, b: PhysicalBlock)
    requires Audit(d, v).Sound? && b.handle in v.place && v.place[b.handle] == SmallUse
    requires b.size == PAGE && b.handle !in d.mappedAt
    ensures Audit(d, PutSmall(v, b)).Sound?
  {
    assert Open(Seal);
    assert Found(d.live, b.handle, v.place[b.handle], v.small_free, v.large_free, [], 0);
    SmallPut(d.live, d.mappedAt.Keys, v.place, v.small_free, v.large_free, [], 0, b);
    CountedMoved(d.live, v.place, v.small_cached_bytes, v.small_in_use_bytes, v.large_cached_bytes, v.large_in_use_bytes, 0,
                 b.handle, SmallCache(|v.small_free|));
  }

  /** large_free_[c]: looking up a size class opens its bucket. */
  ghost function OpenBucket(v: Manager, c: nat): Manager {
    if c in v.large_free then v else v.(large_free := v.large_free[c := []])
  }

  lemma OpenBucketSound(d: D.State, v: Manager, c: nat)
    requires Audit(d, v).Sound? && LegalClass(c)
    ensures Audit(d, OpenBucket(v, c)).Sound?
  {
    assert Open(Seal);
    if c !in v.large_free {
      BucketOpened(d.live, d.mappedAt.Keys, v.place, v.small_free, v.large_free, [], 0, c);
    }
  }

  ghost function TakeLarge(v: Manager, c: nat): Manager
    requires c in v.large_free && v.large_free[c] != []
  {
    var pool := v.large_free[c];
    var b := pool[|pool| - 1];
    v.(large_free := v.large_free[c := pool[..|pool| - 1]], large_cached_bytes := v.large_cached_bytes - b.size,
       large_in_use_bytes := v.large_in_use_bytes + b.size, place := v.place[b.handle := LargeUse])
  }

  lemma LastIsCached(d: D.State, v: Manager, c: nat)
    requires Audit(d, v).Sound? && c in v.large_free && v.large_free[c] != []
    ensures Handed(d, v, d, TakeLarge(v, c), v.large_free[c][|v.large_free[c]| - 1], c, LargeUse)
    ensures v.large_free[c][|v.large_free[c]| - 1].size == c
  {
    assert Open(Seal);
    assert Sits(d.live, v.place, v.large_free[c][|v.large_free[c]| - 1], c, LargeCache(c, |v.large_free[c]| - 1));
    LargeTaken(d.live, d.mappedAt.Keys, v.place, v.small_free, v.large_free, [], 0, c);
  }

  lemma TakeLargeSound(d: D.State, v: Manager, c: nat)
    requires Audit(d, v).Sound? && c in v.large_free && v.large_free[c] != []
    ensures Audit(d, TakeLarge(v, c)).Sound?
    ensures Handed(d, v, d, TakeLarge(v, c), v.large_free[c][|v.large_free[c]| - 1], c, LargeUse)
    ensures v.large_free[c][|v.large_free[c]| - 1].size == c
  {
    LastIsCached(d, v, c);
    assert Open(Seal);
    var b := v.large_free[c][|v.large_free[c]| - 1];
    assert Sits(d.live, v.place, b, c, LargeCache(c, |v.large_free[c]| - 1));
    LargeTaken(d.live, d.mappedAt.Keys, v.place, v.small_free, v.large_free, [], 0, c);
    CountedMoved(d.live, v.place, v.small_cached_bytes, v.small_in_use_bytes, v.large_cached_bytes, v.large_in_use_bytes, 0,
                 b.handle, LargeUse);
  }

  ghost function GainLarge(v: Manager, h: nat, c: nat): Manager {
    v.(large_in_use_bytes := v.large_in_use_bytes + c, place := v.place[h := LargeUse])
  }

  lemma GainLargeSound(d: D.State, v: Manager, h: nat, c: nat)
    requires Audit(d, v).Sound? && h !in d.live && LegalClass(c)
    ensures Audit(D.Created(d, h, c), GainLarge(v, h, c)).Sound?
    ensures h !in v.place && h !in d.mappedAt
  {
    assert Open(Seal);
    BlockCreated(d.live, d.mappedAt.Keys, v.place, v.small_free, v.large_free, [], 0, h, c, LargeUse);
    CountedCreated(d.live, v.place, v.small_cached_bytes, v.small_in_use_bytes, v.large_cached_bytes, v.large_in_use_bytes, 0, h, c, LargeUse);
  }

  ghost function PutLarge(v: Manager, b: PhysicalBlock): Manager
    requires b.size in v.large_free
  {
    v.(large_free := v.large_free[b.size := v.large_free[b.size] + [b]], large_cached_bytes := v.large_cached_bytes + b.size,
       large_in_use_bytes := v.large_in_use_bytes - b.size, place := v.place[b.handle := LargeCache(b.size, |v.large_free[b.size]|)])
  }

  lemma LargeUseIsLegal(d: D.State, v: Manager, h: nat)
    requires Audit(d, v).Sound? && h in v.place && v.place[h] == LargeUse && h in d.live
    ensures LegalClass(d.live[h])
  {
    assert Open(Seal);
    assert Found(d.live, h, v.place[h], v.small_free, v.large_free, [], 0);
  }

  lemma PutLargeSound(d: D.State, v: Manager, b: PhysicalBlock)
    requires Audit(d, v).Sound? && b.handle in v.place && v.place[b.handle] == LargeUse && b.size in v.large_free
    requires b.handle in d.live && b.size == d.live[b.handle] && b.handle !in d.mappedAt
    ensures Audit(d, PutLarge(v, b)).Sound?
  {
    assert Open(Seal);
    LargePut(d.live, d.mappedAt.Keys, v.place, v.small_free, v.large_free, [], 0, b);
    CountedMoved(d.live, v.place, v.small_cached_bytes, v.small_in_use_bytes, v.large_cached_bytes, v.large_in_use_bytes, 0,
                 b.handle, LargeCache(b.size, |v.large_free[b.size]|));
  }

  predicate IsCached(p: Place) {
    p.SmallCache? || p.LargeCache?
  }

  ghost function CachedHandles(place: Places): set<nat> {
    set h | h in place && IsCached(place[h])
  }

  ghost function DoomedHandles(place: Places): set<nat> {
    set h | h in place && place[h].Doomed?
  }

  ghost predicate EmptyOutside(large: Buckets, todo: set<nat>) {
    forall k <- large :: k !in todo ==> large[k] == []
  }

  ghost predicate NoLarge(large: Buckets) {
    forall k <- large :: large[k] == []
  }

  // ---- dooming and destroying ----------------------------------------------------------------

  ghost function DoomSmall(v: Manager, slot: nat): Manager
    requires v.small_free != []
  {
    var b := v.small_free[|v.small_free| - 1];
    v.(small_free := v.small_free[..|v.small_free| - 1], small_cached_bytes := v.small_cached_bytes - b.size,
       place := v.place[b.handle := Doomed(slot)])
  }

  lemma DoomSmallSound(d: D.State, v: Manager, doomed: seq<PhysicalBlock>, freed: int)
    requires AuditDoomed(d, v, doomed, 0, freed).Sound? && v.small_free != []
    ensures var b := v.small_free[|v.small_free| - 1];
            b.size == PAGE && b.handle in d.live && d.live[b.handle] == PAGE
            && b.handle in v.place && IsCached(v.place[b.handle])
            && AuditDoomed(d, DoomSmall(v, |doomed|), doomed + [b], 0, freed + PAGE).Sound?
  {
    assert Open(Seal);
    var b := v.small_free[|v.small_free| - 1];
    assert Sits(d.live, v.place, b, PAGE, SmallCache(|v.small_free| - 1));
    SmallDoomed(d.live, d.mappedAt.Keys, v.place, v.small_free, v.large_free, doomed);
    CountedMoved(d.live, v.place, v.small_cached_bytes, v.small_in_use_bytes, v.large_cached_bytes,
                 v.large_in_use_bytes, freed, b.handle, Doomed(|doomed|));
  }

  ghost function DoomLarge(v: Manager, c: nat, slot: nat): Manager
    requires c in v.large_free && v.large_free[c] != []
  {
    var pool := v.large_free[c];
    var b := pool[|pool| - 1];
    v.(large_free := v.large_free[c := pool[..|pool| - 1]], large_cached_bytes := v.large_cached_bytes - b.size,
       place := v.place[b.handle := Doomed(slot)])
  }

  lemma DoomLargeSound(d: D.State, v: Manager, doomed: seq<PhysicalBlock>, freed: int, c: nat)
    requires AuditDoomed(d, v, doomed, 0, freed).Sound? && c in v.large_free && v.large_free[c] != []
    ensures var b := v.large_free[c][|v.large_free[c]| - 1];
            b.size == c && b.handle in d.live && d.live[b.handle] == c
            && b.handle in v.place && IsCached(v.place[b.handle])
            && AuditDoomed(d, DoomLarge(v, c, |doomed|), doomed + [b], 0, freed + c).Sound?
  {
    assert Open(Seal);
    var b := v.large_free[c][|v.large_free[c]| - 1];
    assert Sits(d.live, v.place, b, c, LargeCache(c, |v.large_free[c]| - 1));
    LargeDoomed(d.live, d.mappedAt.Keys, v.place, v.small_free, v.large_free, doomed, c);
    CountedMoved(d.live, v.place, v.small_cached_bytes, v.small_in_use_bytes, v.large_cached_bytes,
                 v.large_in_use_bytes, freed, b.handle, Doomed(|doomed|));
  }

  lemma BucketClosedSound(d: D.State, v: Manager, doomed: seq<PhysicalBlock>, freed: int, c: nat)
    requires AuditDoomed(d, v, doomed, 0, freed).Sound? && c in v.large_free && v.large_free[c] == []
    ensures AuditDoomed(d, v.(large_free := v.large_free - {c}), doomed, 0, freed).Sound?
  {
    assert Open(Seal);
  }

  ghost function Destroy(v: Manager, h: nat): Manager {
    v.(place := v.place - {h})
  }

  lemma DestroySound(d: D.State, v: Manager, doomed: seq<PhysicalBlock>, from: nat, left: int, b: PhysicalBlock, from': nat, left': int)
    requires AuditDoomed(d, v, doomed, from, left).Sound? && from < |doomed|
    requires b == doomed[from] && from' == from + 1 && left' == left - b.size
    ensures b.handle in d.live && d.live[b.handle] == b.size && b.handle !in d.mappedAt
    ensures b.handle in v.place && v.place[b.handle] == Doomed(from)
    ensures AuditDoomed(D.Released(d, b.handle), Destroy(v, b.handle), doomed, from', left').Sound?
  {
    assert Open(Seal);
    assert Sits(d.live, v.place, b, b.size, Doomed(from));
    BlockDestroyed(d.live, d.mappedAt.Keys, v.place, v.small_free, v.large_free, doomed, from);
    CountedReleased(d.live, v.place, v.small_cached_bytes, v.small_in_use_bytes, v.large_cached_bytes,
                    v.large_in_use_bytes, left, b.handle);
  }

  lemma {:induction false} NothingDoomed(live: map<nat, nat>, place: Places)
    requires live.Keys <= place.Keys && forall h <- live :: !place[h].Doomed?
    ensures Bytes(live, place, Condemned) == 0
    decreases |live|
  {
    if live != map[] {
      var h :| h in live;
      BytesRemove(live, place, h, Condemned);
      NothingDoomed(live - {h}, place);
    }
  }

  /** When the last doomed block is gone the manager is sound again. */
  lemma AllDestroyed(d: D.State, v: Manager, doomed: seq<PhysicalBlock>, n: nat, left: int)
    requires AuditDoomed(d, v, doomed, n, left).Sound? && n == |doomed|
    ensures left == 0 && Audit(d, v).Sound? && DoomedHandles(v.place) == {}
  {
    assert Open(Seal);
    forall h | h in v.place
      ensures Found(d.live, h, v.place[h], v.small_free, v.large_free, [], 0) && !v.place[h].Doomed?
    {
      assert Found(d.live, h, v.place[h], v.small_free, v.large_free, doomed, n);
    }
    NothingDoomed(d.live, v.place);
  }

  // ---- what a purge releases ----------------------------------------------------------------

  /** gone is a set of cached blocks taken largest first, until they reached need bytes or ran out:
      nothing cached was larger than a block taken, and without its last block it was too small. */
  ghost predicate LargestFirst(live: map<nat, nat>, place: Places, gone: set<nat>, need: nat) {
    && gone <= CachedHandles(place) <= live.Keys
    && (forall h, k :: h in gone && k in CachedHandles(place) && k !in gone ==> live[k] <= live[h])
    && (SumOver(live, gone) >= need || gone == CachedHandles(place))
    && (gone != {} ==> exists last :: IsLast(live, gone, last) && SumOver(live, gone) - live[last] < need)
  }

  ghost predicate IsLast(live: map<nat, nat>, gone: set<nat>, last: nat) {
    last in gone && last in live && forall h :: h in gone && h in live ==> live[last] <= live[h]
  }

  lemma LightSelection(live: map<nat, nat>, cached: set<nat>, top: set<nat>, other: set<nat>)
    requires top <= cached <= live.Keys && other <= cached && |other| <= |top|
    requires forall h, k :: h in top && k in cached && k !in top ==> live[k] <= live[h]
    ensures SumOver(live, other) <= SumOver(live, top)
  {
    HeaviestSelection(Restrict(live, cached), top, other);
    assert Restrict(Restrict(live, cached), top) == Restrict(live, top);
    assert Restrict(Restrict(live, cached), other) == Restrict(live, other);
  }

  /** No other choice of cached blocks that reaches as much needs fewer releases. */
  lemma LargestFirstIsFewest(live: map<nat, nat>, place: Places, gone: set<nat>, need: nat, other: set<nat>)
    requires LargestFirst(live, place, gone, need)
    requires other <= CachedHandles(place)
    requires SumOver(live, other) >= need || (SumOver(live, other) >= SumOver(live, gone) && forall h <- gone :: live[h] > 0)
    ensures |other| >= |gone|
  {
    if gone != {} {
      var last :| IsLast(live, gone, last) && SumOver(live, gone) - live[last] < need;
      SumOverRemove(live, gone, last);
      if |other| <= |gone - {last}| {
        LightSelection(live, CachedHandles(place), gone - {last}, other);
      }
    }
  }

  /** The free lists hold exactly the cached bytes. */
  lemma CachedBytes(d: D.State, v: Manager)
    requires Audit(d, v).Sound?
    ensures CachedHandles(v.place) <= d.live.Keys
    ensures SumOver(d.live, CachedHandles(v.place)) == v.small_cached_bytes + v.large_cached_bytes
  {
    assert Open(Seal);
    CachedIsTwoPools(d.live, v.place);
  }

  lemma {:induction false} CachedIsTwoPools(live: map<nat, nat>, place: Places)
    requires live.Keys <= place.Keys
    ensures SumOver(live, CachedHandles(place)) == Bytes(live, place, SmallCached) + Bytes(live, place, LargeCached)
    decreases |live|
  {
    if live == map[] {
      assert Restrict(live, CachedHandles(place)) == map[];
    } else {
      var h :| h in live;
      BytesRemove(live, place, h, SmallCached);
      BytesRemove(live, place, h, LargeCached);
      CachedIsTwoPools(live - {h}, place);
      SumOverWithout(live, CachedHandles(place), h);
    }
  }

  // ---- the order of a purge -------------------------------------------------------------------

  /** The blocks doomed so far, out of those cached in start, in the order they were taken. */
  ghost predicate Purging(live: map<nat, nat>, start: Places, place: Places, doomed: seq<PhysicalBlock>) {
    && place.Keys == start.Keys
    && (forall h <- place :: if place[h].Doomed? then IsCached(start[h]) else place[h] == start[h])
    && (forall i, h :: 0 <= i < |doomed| && h in CachedHandles(place) && h in live ==> live[h] <= doomed[i].size)
    && (forall i, j :: 0 <= i < j < |doomed| ==> doomed[j].size <= doomed[i].size)
  }

  /** With all larger buckets empty, no cached block exceeds c. */
  lemma CachedAtMost(d: D.State, v: Manager, doomed: seq<PhysicalBlock>, freed: int, c: nat)
    requires AuditDoomed(d, v, doomed, 0, freed).Sound? && c >= PAGE
    requires forall k <- v.large_free :: k > c ==> v.large_free[k] == []
    ensures forall h :: h in CachedHandles(v.place) && h in d.live ==> d.live[h] <= c
  {
    assert Open(Seal);
    forall h | h in CachedHandles(v.place) && h in d.live
      ensures d.live[h] <= c
    {
      assert Found(d.live, h, v.place[h], v.small_free, v.large_free, doomed, 0);
      match v.place[h] {
        case SmallCache(i) => assert Sits(d.live, v.place, v.small_free[i], PAGE, SmallCache(i));
        case LargeCache(k, i) => assert Sits(d.live, v.place, v.large_free[k][i], k, LargeCache(k, i));
        case _ =>
      }
    }
  }

  lemma DoomedSlot(d: D.State, v: Manager, doomed: seq<PhysicalBlock>, freed: int, h: nat) returns (i: nat)
    requires AuditDoomed(d, v, doomed, 0, freed).Sound? && h in DoomedHandles(v.place)
    ensures i < |doomed| && doomed[i].handle == h && h in d.live && doomed[i].size == d.live[h]
  {
    assert Open(Seal);
    assert Found(d.live, h, v.place[h], v.small_free, v.large_free, doomed, 0);
    i := v.place[h].index;
    assert Sits(d.live, v.place, doomed[i], doomed[i].size, Doomed(i));
  }

  lemma DoomedHeavierThanRest(d: D.State, start: Places, v: Manager, doomed: seq<PhysicalBlock>, freed: int, h: nat, k: nat)
    requires AuditDoomed(d, v, doomed, 0, freed).Sound? && Purging(d.live, start, v.place, doomed)
    requires h in DoomedHandles(v.place) && k in CachedHandles(start) && k !in DoomedHandles(v.place) && k in d.live
    ensures h in d.live && d.live[k] <= d.live[h]
  {
    assert Open(Seal);
    var i := DoomedSlot(d, v, doomed, freed, h);
    assert k in CachedHandles(v.place);
  }

  lemma LastDoomed(d: D.State, start: Places, v: Manager, doomed: seq<PhysicalBlock>, freed: int)
    requires AuditDoomed(d, v, doomed, 0, freed).Sound? && Purging(d.live, start, v.place, doomed) && doomed != []
    ensures var b := doomed[|doomed| - 1];
            IsLast(d.live, DoomedHandles(v.place), b.handle) && d.live[b.handle] == b.size
  {
    assert Open(Seal);
    var n := |doomed| - 1;
    assert Sits(d.live, v.place, doomed[n], doomed[n].size, Doomed(n));
    forall h | h in DoomedHandles(v.place) && h in d.live
      ensures doomed[n].size <= d.live[h]
    {
      var i := DoomedSlot(d, v, doomed, freed, h);
    }
  }

  lemma DoomedWereCached(live: map<nat, nat>, start: Places, place: Places, doomed: seq<PhysicalBlock>)
    requires Purging(live, start, place, doomed)
    ensures DoomedHandles(place) <= CachedHandles(start)
    ensures CachedHandles(place) == {} ==> DoomedHandles(place) == CachedHandles(start)
  {
    forall h | h in CachedHandles(start) && CachedHandles(place) == {}
      ensures h in DoomedHandles(place)
    {
      assert h !in CachedHandles(place);
    }
  }

  lemma SomeDoomed(d: D.State, v: Manager, doomed: seq<PhysicalBlock>, freed: int)
    requires AuditDoomed(d, v, doomed, 0, freed).Sound?
    ensures doomed == [] ==> DoomedHandles(v.place) == {}
  {
    assert Open(Seal);
    forall h | h in DoomedHandles(v.place)
      ensures doomed != []
    {
      var i := DoomedSlot(d, v, doomed, freed, h);
    }
  }

  lemma DoomedBytes(d: D.State, v: Manager, doomed: seq<PhysicalBlock>, freed: int)
    requires AuditDoomed(d, v, doomed, 0, freed).Sound?
    ensures freed == SumOver(d.live, DoomedHandles(v.place))
  {
    assert Open(Seal);
    BytesAreSum(d.live, v.place, Condemned);
    assert DoomedHandles(v.place) == HandlesIn(v.place, Condemned);
  }

  lemma LastIsSmallest(d: D.State, start: Places, v: Manager, doomed: seq<PhysicalBlock>, freed: int, need: nat)
    requires AuditDoomed(d, v, doomed, 0, freed).Sound? && Purging(d.live, start, v.place, doomed)
    requires doomed != [] ==> freed - doomed[|doomed| - 1].size < need
    ensures DoomedHandles(v.place) != {}
            ==> exists last :: IsLast(d.live, DoomedHandles(v.place), last) && freed - d.live[last] < need
  {
    assert Open(Seal);
    SomeDoomed(d, v, doomed, freed);
    if doomed != [] {
      LastDoomed(d, start, v, doomed, freed);
    }
  }

  /** The doomed blocks at the end of the collecting phase are a largest-first selection. */
  lemma PurgeCollected(d: D.State, start: Places, v: Manager, doomed: seq<PhysicalBlock>, freed: int, need: nat)
    requires AuditDoomed(d, v, doomed, 0, freed).Sound?
    requires Purging(d.live, start, v.place, doomed)
    requires freed >= need || CachedHandles(v.place) == {}
    requires doomed != [] ==> freed - doomed[|doomed| - 1].size < need
    requires CachedHandles(start) <= d.live.Keys
    ensures LargestFirst(d.live, start, DoomedHandles(v.place), need)
  {
    assert Open(Seal);
    DoomedBytes(d, v, doomed, freed);
    DoomedWereCached(d.live, start, v.place, doomed);
    LastIsSmallest(d, start, v, doomed, freed, need);
    forall h, k | h in DoomedHandles(v.place) && k in CachedHandles(start) && k !in DoomedHandles(v.place)
      ensures d.live[k] <= d.live[h]
    {
      DoomedHeavierThanRest(d, start, v, doomed, freed, h, k);
    }
  }

  /** What purge(need) does to the manager and the driver. */
  ghost predicate Purged(d: D.State, v: Manager, d': D.State, v': Manager, need: nat, freed: nat) {
    var gone := v.place.Keys - v'.place.Keys;
    && LargestFirst(d.live, v.place, gone, need)
    && freed == SumOver(d.live, gone)
    && d' == d.(live := d.live - gone) && v'.place == v.place - gone
    && v'.small_in_use_bytes == v.small_in_use_bytes && v'.large_in_use_bytes == v.large_in_use_bytes
    && v'.purge_count == v.purge_count + (if freed > 0 then 1 else 0)
    && v'.total_purged_bytes == v.total_purged_bytes + freed
  }

  // ---- the two phases of a purge as loop states -------------------------------------------------

  /** The collecting phase: from start, the blocks in doomed have been taken off the free lists. */
  ghost function Collecting(d: D.State, start: Manager, v: Manager, doomed: seq<PhysicalBlock>, freed: int, need: nat): Verdict {
    if forall s {:trigger Lift(s)} :: Lift(s) ==>
       && AuditDoomed(d, v, doomed, 0, freed).Sound?
       && Purging(d.live, start.place, v.place, doomed)
       && (doomed != [] ==> freed - doomed[|doomed| - 1].size < need)
       && v.small_in_use_bytes == start.small_in_use_bytes && v.large_in_use_bytes == start.large_in_use_bytes
       && v.purge_count == start.purge_count && v.total_purged_bytes == start.total_purged_bytes
    then Sound else Broken
  }

  lemma AuditIsUndoomed(d: D.State, v: Manager, need: nat)
    requires Audit(d, v).Sound?
    ensures Collecting(d, v, v, [], 0, need).Sound?
  {
    assert Open(Seal);
    forall h | h in v.place
      ensures !v.place[h].Doomed?
    {
      assert Found(d.live, h, v.place[h], v.small_free, v.large_free, [], 0);
    }
  }

  lemma BucketBlockSize(d: D.State, start: Manager, v: Manager, doomed: seq<PhysicalBlock>, freed: int, need: nat, c: nat)
    requires Collecting(d, start, v, doomed, freed, need).Sound? && c in v.large_free && v.large_free[c] != []
    ensures v.large_free[c][|v.large_free[c]| - 1].size == c && c >= PAGE
  {
    assert Lift(Seal) && Open(Seal);
    var n := |v.large_free[c]| - 1;
    assert Sits(d.live, v.place, v.large_free[c][n], c, LargeCache(c, n));
  }

  lemma CollectLarge(d: D.State, start: Manager, v: Manager, doomed: seq<PhysicalBlock>, freed: int, need: nat, c: nat,
                     b: PhysicalBlock, v': Manager, doomed': seq<PhysicalBlock>, freed': int)
    requires Collecting(d, start, v, doomed, freed, need).Sound? && freed < need
    requires c in v.large_free && v.large_free[c] != [] && b == v.large_free[c][|v.large_free[c]| - 1]
    requires b.size == c && c >= PAGE && forall k <- v.large_free :: k > c ==> v.large_free[k] == []
    requires v' == DoomLarge(v, c, |doomed|) && doomed' == doomed + [b] && freed' == freed + c
    ensures Collecting(d, start, v', doomed', freed', need).Sound?
  {
    assert Lift(Seal);
    CachedAtMost(d, v, doomed, freed, c);
    DoomLargeSound(d, v, doomed, freed, c);
  }

  lemma CollectSmall(d: D.State, start: Manager, v: Manager, doomed: seq<PhysicalBlock>, freed: int, need: nat,
                     b: PhysicalBlock, v': Manager, doomed': seq<PhysicalBlock>, freed': int)
    requires Collecting(d, start, v, doomed, freed, need).Sound? && freed < need
    requires v.small_free != [] && b == v.small_free[|v.small_free| - 1] && NoLarge(v.large_free)
    requires v' == DoomSmall(v, |doomed|) && doomed' == doomed + [b] && freed' == freed + b.size
    ensures Collecting(d, start, v', doomed', freed', need).Sound?
  {
    assert Lift(Seal);
    CachedAtMost(d, v, doomed, freed, PAGE);
    DoomSmallSound(d, v, doomed, freed);
    assert freed' == freed + PAGE;
  }

  /** The purge counters do not concern the free lists. */
  lemma CountPurge(d: D.State, start: Manager, v: Manager, doomed: seq<PhysicalBlock>, freed: int, need: nat, w: Manager)
    requires Collecting(d, start, v, doomed, freed, need).Sound?
    requires w == v.(purge_count := w.purge_count, total_purged_bytes := w.total_purged_bytes)
    ensures AuditDoomed(d, w, doomed, 0, freed).Sound?
  {
    assert Lift(Seal) && Open(Seal);
  }

  lemma CloseBucket(d: D.State, start: Manager, v: Manager, doomed: seq<PhysicalBlock>, freed: int, need: nat, c: nat)
    requires Collecting(d, start, v, doomed, freed, need).Sound? && c in v.large_free && v.large_free[c] == []
    ensures Collecting(d, start, v.(large_free := v.large_free - {c}), doomed, freed, need).Sound?
  {
    assert Lift(Seal);
    BucketClosedSound(d, v, doomed, freed, c);
  }

  lemma EmptyListsCacheNothing(d: D.State, v: Manager, doomed: seq<PhysicalBlock>, freed: int)
    requires AuditDoomed(d, v, doomed, 0, freed).Sound?
    requires v.small_free == [] && NoLarge(v.large_free)
    ensures CachedHandles(v.place) == {}
  {
    assert Open(Seal);
    forall h | h in v.place
      ensures !IsCached(v.place[h])
    {
      assert Found(d.live, h, v.place[h], v.small_free, v.large_free, doomed, 0);
    }
  }

  lemma Collected(d: D.State, start: Manager, v: Manager, doomed: seq<PhysicalBlock>, freed: int, need: nat)
    requires Audit(d, start).Sound? && Collecting(d, start, v, doomed, freed, need).Sound?
    requires freed >= need || (v.small_free == [] && NoLarge(v.large_free))
    ensures freed == SumOver(d.live, DoomedHandles(v.place))
    ensures LargestFirst(d.live, start.place, DoomedHandles(v.place), need)
  {
    assert Lift(Seal);
    CachedBytes(d, start);
    if freed < need {
      EmptyListsCacheNothing(d, v, doomed, freed);
    }
    PurgeCollected(d, start.place, v, doomed, freed, need);
    DoomedBytes(d, v, doomed, freed);
  }

  /** The releasing phase: of the doomed blocks, those in gone are back with the driver. */
  ghost function Destroying(d0: D.State, v0: Manager, d: D.State, v: Manager, doomed: seq<PhysicalBlock>, i: nat,
                            left: int, gone: set<nat>): Verdict
  {
    if forall s {:trigger Lift(s)} :: Lift(s) ==>
       && AuditDoomed(d, v, doomed, i, left).Sound?
       && gone <= DoomedHandles(v0.place)
       && v == v0.(place := v0.place - gone) && d == d0.(live := d0.live - gone)
    then Sound else Broken
  }

  lemma DestroyStart(d: D.State, v: Manager, doomed: seq<PhysicalBlock>, bytes: int)
    requires AuditDoomed(d, v, doomed, 0, bytes).Sound?
    ensures Destroying(d, v, d, v, doomed, 0, bytes, {}).Sound?
  {
    assert v.place - {} == v.place && d.live - {} == d.live;
  }

  lemma DestroyStep(d0: D.State, v0: Manager, d: D.State, v: Manager, doomed: seq<PhysicalBlock>, i: nat, left: int, gone: set<nat>,
                    b: PhysicalBlock, j: nat, left': int, gone': set<nat>)
    requires Destroying(d0, v0, d, v, doomed, i, left, gone).Sound? && i < |doomed|
    requires b == doomed[i] && j == i + 1 && left' == left - b.size && gone' == gone + {b.handle}
    ensures b.handle in d.live && d.live[b.handle] == b.size && b.handle !in d.mappedAt
    ensures Destroying(d0, v0, D.Released(d, b.handle), Destroy(v, b.handle), doomed, j, left', gone').Sound?
  {
    assert Lift(Seal);
    DestroySound(d, v, doomed, i, left, b, j, left');
  }

  lemma Destroyed(d0: D.State, v0: Manager, d: D.State, v: Manager, doomed: seq<PhysicalBlock>, left: int, gone: set<nat>)
    requires Destroying(d0, v0, d, v, doomed, |doomed|, left, gone).Sound?
    ensures Audit(d, v).Sound? && gone == DoomedHandles(v0.place)
    ensures v == v0.(place := v0.place - gone) && d == d0.(live := d0.live - gone)
  {
    assert Lift(Seal);
    AllDestroyed(d, v, doomed, |doomed|, left);
    forall h | h in DoomedHandles(v0.place)
      ensures h in gone
    {
      assert h !in DoomedHandles(v.place);
    }
  }

  lemma PlacesLeft(live: map<nat, nat>, start: Places, place: Places, doomed: seq<PhysicalBlock>)
    requires Purging(live, start, place, doomed)
    ensures var gone := DoomedHandles(place);
            place - gone == start - gone && start.Keys - (place - gone).Keys == gone
  {
  }

  /** Both phases together are the purge the header promises. */
  lemma PurgeDone(d: D.State, start: Manager, v: Manager, doomed: seq<PhysicalBlock>, freed: nat, need: nat, w: Manager)
    requires Audit(d, start).Sound? && Collecting(d, start, v, doomed, freed, need).Sound?
    requires freed >= need || (v.small_free == [] && NoLarge(v.large_free))
    requires w == v.(purge_count := v.purge_count + (if freed > 0 then 1 else 0),
                     total_purged_bytes := v.total_purged_bytes + freed,
                     place := v.place - DoomedHandles(v.place))
    ensures Purged(d, start, d.(live := d.live - DoomedHandles(v.place)), w, need, freed)
  {
    assert Lift(Seal);
    Collected(d, start, v, doomed, freed, need);
    PlacesLeft(d.live, start.place, v.place, doomed);
  }

  lemma PurgeNothing(d: D.State, v: Manager)
    requires Audit(d, v).Sound?
    ensures Purged(d, v, d, v, 0, 0)
  {
    assert Open(Seal);
    CachedBytes(d, v);
    assert Restrict(d.live, {}) == map[];
    assert v.place - {} == v.place && d.live - {} == d.live;
    assert v.place.Keys - v.place.Keys == {};
  }

  lemma CachedPositive(d: D.State, v: Manager, h: nat)
    requires Audit(d, v).Sound? && h in CachedHandles(v.place)
    ensures h in d.live && d.live[h] > 0
  {
    assert Open(Seal);
    assert Found(d.live, h, v.place[h], v.small_free, v.large_free, [], 0);
    match v.place[h] {
      case SmallCache(i) => assert Sits(d.live, v.place, v.small_free[i], PAGE, SmallCache(i));
      case LargeCache(k, i) => assert Sits(d.live, v.place, v.large_free[k][i], k, LargeCache(k, i));
    }
  }

  lemma AnyChoiceIsNoFewer(d: D.State, v: Manager, gone: set<nat>, need: nat, other: set<nat>)
    requires Audit(d, v).Sound? && LargestFirst(d.live, v.place, gone, need) && other <= CachedHandles(v.place)
    requires SumOver(d.live, other) >= need || SumOver(d.live, other) >= SumOver(d.live, CachedHandles(v.place))
    ensures |other| >= |gone|
  {
    forall h | h in gone
      ensures d.live[h] > 0
    {
      CachedPositive(d, v, h);
    }
    SumSubset(Restrict(d.live, gone), Restrict(d.live, CachedHandles(v.place)));
    LargestFirstIsFewest(d.live, v.place, gone, need, other);
  }

  /** What the header promises of purge: enough is released, no more than a last block too much,
      and with the fewest releases that any choice of cached blocks could do it with. */
  lemma PurgeIsOptimal(d: D.State, v: Manager, d': D.State, v': Manager, need: nat, freed: nat)
    requires Audit(d, v).Sound? && Purged(d, v, d', v', need, freed)
    ensures freed >= Goal(v, need)
    ensures var gone := v.place.Keys - v'.place.Keys;
            && (gone != {} ==> exists last :: IsLast(d.live, gone, last) && freed - d.live[last] < need)
            && (forall other :: other <= CachedHandles(v.place) && SumOver(d.live, other) >= Goal(v, need) ==> |gone| <= |other|)
  {
    PurgeIsEnough(d, v, d', v', need, freed);
    var gone := v.place.Keys - v'.place.Keys;
    forall other | other <= CachedHandles(v.place) && SumOver(d.live, other) >= Goal(v, need)
      ensures |gone| <= |other|
    {
      CachedBytes(d, v);
      AnyChoiceIsNoFewer(d, v, gone, need, other);
    }
  }

  lemma PurgeIsEnough(d: D.State, v: Manager, d': D.State, v': Manager, need: nat, freed: nat)
    requires Audit(d, v).Sound? && Purged(d, v, d', v', need, freed)
    ensures freed >= Goal(v, need)
  {
    CachedBytes(d, v);
  }

  lemma CachedBlockSize(d: D.State, v: Manager, h: nat)
    requires Audit(d, v).Sound? && h in CachedHandles(v.place) && h in d.live
    ensures d.live[h] <= 16 * UNIT
  {
    assert Open(Seal);
    assert Found(d.live, h, v.place[h], v.small_free, v.large_free, [], 0);
    match v.place[h] {
      case SmallCache(i) => assert Sits(d.live, v.place, v.small_free[i], PAGE, SmallCache(i));
      case LargeCache(c, i) => assert Sits(d.live, v.place, v.large_free[c][i], c, LargeCache(c, i));
    }
  }

  /** What a purge does to the totals: it releases enough, less than the largest block too much, and
      the caches shrink by just that. */
  lemma PurgeTotals(d: D.State, v: Manager, d': D.State, v': Manager, need: nat, freed: nat)
    requires Audit(d, v).Sound? && Audit(d', v').Sound? && Purged(d, v, d', v', need, freed)
    ensures freed >= Goal(v, need) && (freed > 0 ==> freed < need + 16 * UNIT)
    ensures Sum(d'.live) == Sum(d.live) - freed
    ensures v'.small_cached_bytes + v'.large_cached_bytes == v.small_cached_bytes + v.large_cached_bytes - freed
  {
    PurgeIsEnough(d, v, d', v', need, freed);
    var gone := v.place.Keys - v'.place.Keys;
    CachedBytes(d, v);
    SumWithoutKeys(d.live, gone);
    if gone == {} {
      NothingIsNothing(d.live);
    } else {
      var last :| IsLast(d.live, gone, last) && SumOver(d.live, gone) - d.live[last] < need;
      CachedBlockSize(d, v, last);
    }
    HeldIsLive(d, v);
    HeldIsLive(d', v');
  }

  /** What purge(need) can achieve: need bytes, or all that is cached. */
  ghost function Goal(v: Manager, need: nat): int {
    var cached := v.small_cached_bytes + v.large_cached_bytes;
    if need < cached then need else cached
  }

  // ---- trimming -----------------------------------------------------------------------------------

  ghost function DropSmall(v: Manager): Manager
    requires v.small_free != []
  {
    Destroy(DoomSmall(v, 0), v.small_free[|v.small_free| - 1].handle)
  }

  ghost function DropLarge(v: Manager, c: nat): Manager
    requires c in v.large_free && v.large_free[c] != []
  {
    Destroy(DoomLarge(v, c, 0), v.large_free[c][|v.large_free[c]| - 1].handle)
  }

  /** Of the blocks cached in v0, those in gone are back with the driver; blocks in use stay. */
  ghost function Trimming(d0: D.State, v0: Manager, d: D.State, v: Manager, gone: set<nat>): Verdict {
    if forall s {:trigger Lift(s)} :: Lift(s) ==>
       && Audit(d, v).Sound?
       && gone <= CachedHandles(v0.place) && v.place == v0.place - gone && d == d0.(live := d0.live - gone)
       && v.small_in_use_bytes == v0.small_in_use_bytes && v.large_in_use_bytes == v0.large_in_use_bytes
       && v.purge_count == v0.purge_count && v.total_purged_bytes == v0.total_purged_bytes
    then Sound else Broken
  }

  lemma TrimStart(d: D.State, v: Manager)
    requires Audit(d, v).Sound?
    ensures Trimming(d, v, d, v, {}).Sound?
  {
    assert v.place - {} == v.place && d.live - {} == d.live;
  }

  lemma ReleaseDoomed(d: D.State, v: Manager, b: PhysicalBlock)
    requires AuditDoomed(d, v, [b], 0, b.size).Sound?
    ensures b.handle in d.live && d.live[b.handle] == b.size && b.handle !in d.mappedAt && b.handle in v.place
    ensures Audit(D.Released(d, b.handle), Destroy(v, b.handle)).Sound?
  {
    DestroySound(d, v, [b], 0, b.size, b, 1, 0);
    AllDestroyed(D.Released(d, b.handle), Destroy(v, b.handle), [b], 1, 0);
  }

  lemma DropSmallSound(d: D.State, v: Manager, b: PhysicalBlock)
    requires Audit(d, v).Sound? && v.small_free != [] && b == v.small_free[|v.small_free| - 1]
    ensures b.handle in d.live && d.live[b.handle] == b.size && b.handle !in d.mappedAt
    ensures b.handle in v.place && IsCached(v.place[b.handle])
    ensures Audit(D.Released(d, b.handle), DropSmall(v)).Sound?
  {
    DoomSmallSound(d, v, [], 0);
    assert [] + [b] == [b];
    ReleaseDoomed(d, DoomSmall(v, 0), b);
  }

  lemma DropLargeSound(d: D.State, v: Manager, c: nat, b: PhysicalBlock)
    requires Audit(d, v).Sound? && c in v.large_free && v.large_free[c] != [] && b == v.large_free[c][|v.large_free[c]| - 1]
    ensures b.handle in d.live && d.live[b.handle] == b.size && b.handle !in d.mappedAt
    ensures b.handle in v.place && IsCached(v.place[b.handle])
    ensures Audit(D.Released(d, b.handle), DropLarge(v, c)).Sound?
  {
    DoomLargeSound(d, v, [], 0, c);
    assert [] + [b] == [b];
    ReleaseDoomed(d, DoomLarge(v, c, 0), b);
  }

  lemma TrimStep(d0: D.State, v0: Manager, d: D.State, v: Manager, gone: set<nat>, h: nat, v': Manager)
    requires Trimming(d0, v0, d, v, gone).Sound? && h in CachedHandles(v.place)
    requires Audit(D.Released(d, h), v').Sound? && v'.place == v.place - {h}
    requires v'.small_in_use_bytes == v.small_in_use_bytes && v'.large_in_use_bytes == v.large_in_use_bytes
    requires v'.purge_count == v.purge_count && v'.total_purged_bytes == v.total_purged_bytes
    ensures Trimming(d0, v0, D.Released(d, h), v', gone + {h}).Sound?
  {
    assert Lift(Seal);
  }

  lemma TrimSmall(d0: D.State, v0: Manager, d: D.State, v: Manager, gone: set<nat>, b: PhysicalBlock)
    requires Trimming(d0, v0, d, v, gone).Sound? && v.small_free != [] && b == v.small_free[|v.small_free| - 1]
    ensures b.handle in d.live && d.live[b.handle] == b.size && b.handle !in d.mappedAt
    ensures Trimming(d0, v0, D.Released(d, b.handle), DropSmall(v), gone + {b.handle}).Sound?
  {
    assert Lift(Seal);
    DropSmallSound(d, v, b);
    TrimStep(d0, v0, d, v, gone, b.handle, DropSmall(v));
  }

  lemma TrimLarge(d0: D.State, v0: Manager, d: D.State, v: Manager, gone: set<nat>, c: nat, b: PhysicalBlock)
    requires Trimming(d0, v0, d, v, gone).Sound?
    requires c in v.large_free && v.large_free[c] != [] && b == v.large_free[c][|v.large_free[c]| - 1]
    ensures b.handle in d.live && d.live[b.handle] == b.size && b.handle !in d.mappedAt
    ensures Trimming(d0, v0, D.Released(d, b.handle), DropLarge(v, c), gone + {b.handle}).Sound?
  {
    assert Lift(Seal);
    DropLargeSound(d, v, c, b);
    TrimStep(d0, v0, d, v, gone, b.handle, DropLarge(v, c));
  }

  lemma TrimBucket(d0: D.State, v0: Manager, d: D.State, v: Manager, gone: set<nat>, c: nat)
    requires Trimming(d0, v0, d, v, gone).Sound? && c in v.large_free && v.large_free[c] == []
    ensures Trimming(d0, v0, d, v.(large_free := v.large_free - {c}), gone).Sound?
  {
    assert Lift(Seal);
    BucketClosedSound(d, v, [], 0, c);
  }

  /** What trim does to the manager and the driver: nothing cached is left, and the driver holds
      exactly the bytes in use. */
  ghost predicate Trimmed(d: D.State, v: Manager, d': D.State, v': Manager) {
    && v' == v.(small_free := [], large_free := map[], small_cached_bytes := 0, large_cached_bytes := 0,
                place := v.place - CachedHandles(v.place))
    && d' == d.(live := d.live - CachedHandles(v.place))
    && Sum(d'.live) == v'.small_in_use_bytes + v'.large_in_use_bytes
  }

  /** The bytes the manager says it holds are the bytes the driver has handed out. */
  lemma HeldIsLive(d: D.State, v: Manager)
    requires Audit(d, v).Sound?
    ensures v.small_in_use_bytes + v.small_cached_bytes + v.large_in_use_bytes + v.large_cached_bytes == Sum(d.live)
    ensures v.small_in_use_bytes >= 0 && v.small_cached_bytes >= 0 && v.large_in_use_bytes >= 0 && v.large_cached_bytes >= 0
  {
    assert Open(Seal);
    BytesTotal(d.live, v.place);
  }

  /** After a purge all bytes in use are left, and only they unless enough has been released. */
  lemma PurgeLeaves(d: D.State, v: Manager, d': D.State, v': Manager, need: nat, freed: nat)
    requires Audit(d, v).Sound? && Audit(d', v').Sound? && Purged(d, v, d', v', need, freed)
    ensures var in_use := v.small_in_use_bytes + v.large_in_use_bytes;
            && v'.small_in_use_bytes + v'.large_in_use_bytes == in_use <= Sum(d'.live) == Sum(d.live) - freed
            && (freed >= need || Sum(d'.live) == in_use)
            && 0 <= v'.small_cached_bytes <= Sum(d'.live) - in_use
    ensures v'.purge_count == v.purge_count + (if freed > 0 then 1 else 0) && v'.total_purged_bytes == v.total_purged_bytes + freed
    ensures freed > 0 ==> freed < need + 16 * UNIT
  {
    PurgeTotals(d, v, d', v', need, freed);
    HeldIsLive(d, v);
    HeldIsLive(d', v');
  }

  lemma NothingIsNothing(live: map<nat, nat>)
    ensures SumOver(live, {}) == 0
  {
    assert Restrict(live, {}) == map[];
  }

  lemma TrimDone(d0: D.State, v0: Manager, d: D.State, v: Manager, gone: set<nat>)
    requires Trimming(d0, v0, d, v, gone).Sound? && v.small_free == [] && v.large_free == map[]
    ensures Audit(d, v).Sound? && Trimmed(d0, v0, d, v)
  {
    assert Lift(Seal);
    EmptyListsCacheNothing(d, v, [], 0);
    forall h | h in CachedHandles(v0.place)
      ensures h in gone
    {
      assert h !in CachedHandles(v.place);
    }
    CachedBytes(d, v);
    NothingIsNothing(d.live);
    HeldIsLive(d, v);
  }

  // ---- the counters and the lists ------------------------------------------------------------------

  ghost function HandlesOf(list: seq<PhysicalBlock>): set<nat> {
    set b | b in list :: b.handle
  }

  ghost predicate LiveOnce(live: map<nat, nat>, list: seq<PhysicalBlock>) {
    && (forall i :: 0 <= i < |list| ==> list[i].handle in live && live[list[i].handle] == list[i].size)
    && (forall i, j :: 0 <= i < j < |list| ==> list[i].handle != list[j].handle)
  }

  lemma {:induction false} TotalIsSum(live: map<nat, nat>, list: seq<PhysicalBlock>)
    requires LiveOnce(live, list)
    ensures Total(list) == SumOver(live, HandlesOf(list))
  {
    if list == [] {
      NothingIsNothing(live);
      assert HandlesOf(list) == {};
    } else {
      var b, rest := list[0], list[1..];
      TotalIsSum(live, rest);
      assert list == [b] + rest;
      assert HandlesOf(list) == HandlesOf(rest) + {b.handle};
      SumOverAdd(live, HandlesOf(rest), b.handle);
    }
  }

  lemma SmallListIsPool(d: D.State, v: Manager)
    requires Audit(d, v).Sound?
    ensures LiveOnce(d.live, v.small_free) && HandlesOf(v.small_free) == HandlesIn(v.place, SmallCached)
  {
    assert Open(Seal);
    forall i | 0 <= i < |v.small_free|
      ensures v.small_free[i].handle in v.place && v.place[v.small_free[i].handle] == SmallCache(i)
      ensures v.small_free[i].handle in d.live && d.live[v.small_free[i].handle] == v.small_free[i].size
    {
      assert Sits(d.live, v.place, v.small_free[i], PAGE, SmallCache(i));
    }
    forall h | h in HandlesIn(v.place, SmallCached)
      ensures h in HandlesOf(v.small_free)
    {
      assert Found(d.live, h, v.place[h], v.small_free, v.large_free, [], 0);
    }
  }

  lemma BucketIsLive(d: D.State, v: Manager, c: nat)
    requires Audit(d, v).Sound? && c in v.large_free
    ensures LiveOnce(d.live, v.large_free[c])
    ensures forall i :: 0 <= i < |v.large_free[c]| ==>
              v.large_free[c][i].handle in v.place && v.place[v.large_free[c][i].handle] == LargeCache(c, i)
  {
    assert Open(Seal);
    forall i | 0 <= i < |v.large_free[c]|
      ensures v.large_free[c][i].handle in v.place && v.place[v.large_free[c][i].handle] == LargeCache(c, i)
      ensures v.large_free[c][i].handle in d.live && d.live[v.large_free[c][i].handle] == v.large_free[c][i].size
    {
      assert Sits(d.live, v.place, v.large_free[c][i], c, LargeCache(c, i));
    }
  }

  /** The handles cached in the buckets of the given classes. */
  ghost function InBuckets(place: Places, classes: set<nat>): set<nat> {
    set h | h in place && place[h].LargeCache? && place[h].class_ in classes
  }

  ghost function BucketBytes(large: Buckets): map<nat, nat> {
    map c | c in large :: Total(large[c])
  }

  lemma {:induction false} BucketsAreSum(d: D.State, v: Manager, classes: set<nat>)
    requires Audit(d, v).Sound? && classes <= v.large_free.Keys
    ensures SumOver(BucketBytes(v.large_free), classes) == SumOver(d.live, InBuckets(v.place, classes))
    decreases classes
  {
    if classes == {} {
      NothingIsNothing(d.live);
      NothingIsNothing(BucketBytes(v.large_free));
      assert InBuckets(v.place, classes) == {};
    } else {
      var c :| c in classes;
      BucketsAreSum(d, v, classes - {c});
      SumOverRemove(BucketBytes(v.large_free), classes, c);
      BucketIsSum(d, v, classes, c);
    }
  }

  lemma BucketIsSum(d: D.State, v: Manager, classes: set<nat>, c: nat)
    requires Audit(d, v).Sound? && c in classes && classes <= v.large_free.Keys
    ensures SumOver(d.live, InBuckets(v.place, classes))
            == SumOver(d.live, InBuckets(v.place, classes - {c})) + Total(v.large_free[c])
  {
    BucketIsLive(d, v, c);
    TotalIsSum(d.live, v.large_free[c]);
    BucketHandles(d, v, c);
    var rest, own := InBuckets(v.place, classes - {c}), HandlesOf(v.large_free[c]);
    assert InBuckets(v.place, classes) == rest + own;
    SumOverUnion(d.live, rest, own);
  }

  lemma BucketHandles(d: D.State, v: Manager, c: nat)
    requires Audit(d, v).Sound? && c in v.large_free
    ensures HandlesOf(v.large_free[c]) == InBuckets(v.place, {c})
  {
    BucketIsLive(d, v, c);
    assert Open(Seal);
    forall h | h in InBuckets(v.place, {c})
      ensures h in HandlesOf(v.large_free[c])
    {
      assert Found(d.live, h, v.place[h], v.small_free, v.large_free, [], 0);
    }
  }

  /** The cached-byte counters are the sums over the free lists. */
  lemma CountersAreSums(d: D.State, v: Manager)
    requires Audit(d, v).Sound?
    ensures v.small_cached_bytes == Total(v.small_free)
    ensures v.large_cached_bytes == Sum(BucketBytes(v.large_free))
  {
    SmallListIsPool(d, v);
    TotalIsSum(d.live, v.small_free);
    BytesInPool(d, v);
    BucketsAreSum(d, v, v.large_free.Keys);
    assert Restrict(BucketBytes(v.large_free), v.large_free.Keys) == BucketBytes(v.large_free);
    AllBuckets(d, v);
  }

  lemma BytesInPool(d: D.State, v: Manager)
    requires Audit(d, v).Sound?
    ensures v.small_cached_bytes == SumOver(d.live, HandlesIn(v.place, SmallCached))
    ensures v.large_cached_bytes == SumOver(d.live, HandlesIn(v.place, LargeCached))
  {
    assert Open(Seal);
    BytesAreSum(d.live, v.place, SmallCached);
    BytesAreSum(d.live, v.place, LargeCached);
  }

  lemma AllBuckets(d: D.State, v: Manager)
    requires Audit(d, v).Sound?
    ensures HandlesIn(v.place, LargeCached) == InBuckets(v.place, v.large_free.Keys)
  {
    assert Open(Seal);
    forall h | h in HandlesIn(v.place, LargeCached)
      ensures h in InBuckets(v.place, v.large_free.Keys)
    {
      assert Found(d.live, h, v.place[h], v.small_free, v.large_free, [], 0);
    }
  }
}

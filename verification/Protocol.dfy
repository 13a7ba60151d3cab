/** VMMAllocator under concurrency, as a state machine. Its atomic steps are the critical sections
    of meta_mu_, the calls into the sub-allocators, the operations on the event pool, and the event
    and stream operations of the GPU. Each thread carries what it holds between its steps
    (csrc/vmm_allocator.cc:26-42 and 192-424). */
module Protocol {
  import opened Common
  import opened Ledger

  /** Position pos in the work enqueued on a stream. */
  datatype Mark = Mark(stream: int, pos: nat)

  /** An allocation taken off meta_ to be freed. events are the CUDA events still to be given back;
      marks are where they were recorded, one for every event the entry ever had. */
  datatype Entry = Entry(ptr: nat, meta: AllocMeta, events: seq<nat>, marks: seq<Mark>)

  /** The sub-allocator a pointer came from. */
  datatype Owner = Owner(device: int, is_large: bool)

  /** Where a thread is, with what it holds. Retiring: recording events in free_impl. Draining:
      freeing a list of entries; checked says that their events were seen to be complete. Syncing:
      waiting for the events of a released pool. */
  datatype Local = Idle
                 | Allocating(request: AllocMeta)
                 | Obtained(entry: Entry)
                 | Retiring(entry: Entry, todo: seq<int>, fresh_event: Option<nat>)
                 | Draining(work: seq<Entry>, checked: bool, request_after: Option<AllocMeta>)
                 | Syncing(live: seq<Entry>, waiting: seq<Entry>, synced: seq<Entry>)

  datatype State = State(
    allocated_: map<nat, Owner>,      // what the sub-allocators of all devices have handed out
    meta: Metas,                      // meta_
    index: PoolIndex,                 // pool_allocs_
    pending: multiset<Entry>,         // pending_frees_
    threads: map<nat, Local>,
    pool: seq<nat>,                   // EventPool::pool_
    record: map<nat, Mark>,           // where each created event was last recorded
    enqueued: map<int, nat>,          // work enqueued on each stream
    completed: map<int, nat>,         // work completed on each stream
    fault: bool)                      // an unknown pointer was freed, or a live record overwritten

  const INITIAL: State := State(map[], map[], map[], multiset{}, map[], [], map[], map[], map[], false)

  function OwnerOf(m: AllocMeta): Owner {
    Owner(m.device, m.is_large)
  }

  ghost function LocalOf(s: State, t: nat): Local {
    if t in s.threads then s.threads[t] else Idle
  }

  ghost function Count(m: map<int, nat>, stream: int): nat {
    if stream in m then m[stream] else 0
  }

  /** All work up to the mark has completed. */
  ghost predicate Reached(completed: map<int, nat>, m: Mark) {
    Count(completed, m.stream) >= m.pos
  }

  /** cudaEventQuery would return cudaSuccess. */
  ghost predicate EventDone(s: State, event: nat) {
    event in s.record && Reached(s.completed, s.record[event])
  }

  /** The streams free_impl records events on: the recorded ones, and the allocation stream unless
      it is among them. */
  function Needed(m: AllocMeta): seq<int> {
    if m.alloc_stream in m.recorded_streams then m.recorded_streams else m.recorded_streams + [m.alloc_stream]
  }

  ghost function Streams(marks: seq<Mark>): seq<int> {
    seq(|marks|, i requires 0 <= i < |marks| => marks[i].stream)
  }

  ghost function PtrsOf(work: seq<Entry>): set<nat> {
    set e | e in work :: e.ptr
  }

  function Plain(p: nat, m: AllocMeta): Entry {
    Entry(p, m, [], [])
  }

  datatype Action =
    | Start(request: AllocMeta)                    // enter alloc_impl, choose side and pool
    | Poll(taken: seq<Entry>)                      // processPendingFrees: take complete entries
    | Force(device: int, taken: seq<Entry>)        // forceProcessPendingFrees: take a device's entries
    | Grab(ptr: nat)                               // sub-allocator allocate succeeds
    | GiveUp                                       // the last attempt fails
    | Insert                                       // record the allocation
    | Free(ptr: nat)                               // free_impl: take a pointer off meta_
    | AcquireOld                                   // EventPool::acquire from the pool
    | AcquireNew(event: nat)                       // EventPool::acquire creating an event
    | RecordEvent                                  // cudaEventRecord
    | Push                                         // append to pending_frees_
    | GiveEvent                                    // wait for and give back the head entry's next event
    | Return                                       // doFree of the head entry
    | Finish                                       // the list is done
    | Release(id: PoolId, live: seq<Entry>, taken: seq<Entry>)   // releasePool's critical section
    | SyncEvent                                    // releasePool waits for an event
    | SyncNext                                     // releasePool has waited for an entry
    | SyncDone                                     // releasePool has waited for all
    | RecordStream(ptr: nat, stream: int)
    | Enqueue(stream: int)                         // the application enqueues work
    | Complete(stream: int)                        // the GPU completes work

  /** The step takes entries off the pending list. */
  predicate Taking(a: Action) {
    a.Poll? || a.Force? || a.Release?
  }

  /** The step gives an event back. */
  predicate Giving(a: Action) {
    a.GiveEvent? || a.SyncEvent?
  }

  /** The step belongs to an allocation, or to no call at all. */
  predicate Allocates(a: Action) {
    a.Start? || a.Grab? || a.GiveUp? || a.Insert? || a.RecordStream? || a.Enqueue? || a.Complete?
  }

  /** The thread hands an entry back, or goes on to its next list. */
  predicate Moves(a: Action) {
    a.Return? || a.Finish? || a.SyncNext? || a.SyncDone?
  }

  /** The step belongs to free_impl. */
  predicate Retires(a: Action) {
    a.Free? || a.AcquireOld? || a.AcquireNew? || a.RecordEvent? || a.Push?
  }

  ghost function Goto(s: State, t: nat, l: Local): State {
    s.(threads := s.threads[t := l])
  }

  /** All entries with the property, as one list. */
  ghost predicate TakesAll(pending: multiset<Entry>, taken: seq<Entry>, chosen: Entry -> bool) {
    forall e :: multiset(taken)[e] == if chosen(e) then pending[e] else 0
  }

  ghost predicate ListsLive(meta: Metas, ids: set<nat>, live: seq<Entry>) {
    && (forall i :: 0 <= i < |live| ==> live[i].ptr in ids && live[i].ptr in meta && live[i] == Plain(live[i].ptr, meta[live[i].ptr]))
    && (forall i, j :: 0 <= i < j < |live| ==> live[i].ptr != live[j].ptr)
    && (forall p <- ids :: p in meta ==> p in PtrsOf(live))
  }

  ghost predicate Enabled(s: State, t: nat, a: Action) {
    var l := LocalOf(s, t);
    match a
    case Start(m) => l.Idle? && m.size > 0 && m.recorded_streams == []
    case Poll(taken) => l.Allocating? && multiset(taken) <= s.pending
                        && forall e, event :: e in taken && event in e.events ==> EventDone(s, event)
    case Force(device, taken) => (l.Idle? || (l.Allocating? && device == l.request.device))
                                 && TakesAll(s.pending, taken, (e: Entry) => e.meta.device == device)
    case Grab(ptr) => l.Allocating? && ptr > 0 && ptr !in s.allocated_
    case GiveUp => l.Allocating?
    case Insert => l.Obtained?
    case Free(ptr) => l.Idle? && ptr in s.meta
    case AcquireOld => l.Retiring? && l.todo != [] && l.fresh_event.None? && s.pool != []
    case AcquireNew(event) => l.Retiring? && l.todo != [] && l.fresh_event.None? && s.pool == [] && event !in s.record
    case RecordEvent => l.Retiring? && l.todo != [] && l.fresh_event.Some?
    case Push => l.Retiring? && l.todo == [] && l.fresh_event.None?
    case GiveEvent => l.Draining? && l.work != [] && l.work[0].events != [] && (l.checked || EventDone(s, l.work[0].events[0]))
    case Return => l.Draining? && l.work != [] && l.work[0].events == []
    case Finish => l.Draining? && l.work == []
    case Release(id, live, taken) => l.Idle? && id in s.index && ListsLive(s.meta, s.index[id], live)
                                     && TakesAll(s.pending, taken, (e: Entry) => e.meta.pool_id == id)
    case SyncEvent => l.Syncing? && l.waiting != [] && l.waiting[0].events != [] && EventDone(s, l.waiting[0].events[0])
    case SyncNext => l.Syncing? && l.waiting != [] && l.waiting[0].events == []
    case SyncDone => l.Syncing? && l.waiting == []
    case RecordStream(ptr, stream) => l.Idle? && ptr in s.meta && stream !in s.meta[ptr].recorded_streams
    case Enqueue(_) => true
    case Complete(stream) => Count(s.completed, stream) < Count(s.enqueued, stream)
  }

  /** The sub-allocator's free: its "unknown pointer" check fires unless it handed the pointer out. */
  ghost function SubFree(s: State, e: Entry): State {
    var known := e.ptr in s.allocated_ && s.allocated_[e.ptr] == OwnerOf(e.meta);
    s.(allocated_ := if known then s.allocated_ - {e.ptr} else s.allocated_, fault := s.fault || !known)
  }

  function DropEvent(e: Entry): Entry {
    if e.events == [] then e else e.(events := e.events[1..])
  }

  ghost function Apply(s: State, t: nat, a: Action): State
    requires Enabled(s, t, a)
  {
    var l := LocalOf(s, t);
    match a
    case Start(m) => Goto(s, t, Allocating(m))
    case Poll(taken) => Goto(s.(pending := s.pending - multiset(taken)), t, Draining(taken, true, Some(l.request)))
    case Force(_, taken) => Goto(s.(pending := s.pending - multiset(taken)), t,
                                 Draining(taken, false, if l.Allocating? then Some(l.request) else None))
    case Grab(ptr) => Goto(s.(allocated_ := s.allocated_[ptr := OwnerOf(l.request)]), t, Obtained(Plain(ptr, l.request)))
    case GiveUp => Goto(s, t, Idle)
    case Insert =>
      var e := l.entry;
      Goto(s.(meta := s.meta[e.ptr := e.meta], index := Enlist(s.index, e.meta.pool_id, e.ptr),
              fault := s.fault || e.ptr in s.meta), t, Idle)
    case Free(ptr) =>
      var m := s.meta[ptr];
      Goto(s.(meta := s.meta - {ptr}, index := Delist(s.index, m.pool_id, ptr)), t,
           if m.recorded_streams == [] then Draining([Plain(ptr, m)], true, None) else Retiring(Plain(ptr, m), Needed(m), None))
    case AcquireOld =>
      Goto(s.(pool := s.pool[..|s.pool| - 1]), t, l.(fresh_event := Some(s.pool[|s.pool| - 1])))
    case AcquireNew(event) => Goto(s.(record := s.record[event := Mark(0, 0)]), t, l.(fresh_event := Some(event)))
    case RecordEvent =>
      var event, m := l.fresh_event.value, Mark(l.todo[0], Count(s.enqueued, l.todo[0]));
      Goto(s.(record := s.record[event := m]), t,
           Retiring(l.entry.(events := l.entry.events + [event], marks := l.entry.marks + [m]), l.todo[1..], None))
    case Push => Goto(s.(pending := s.pending + multiset{l.entry}), t, Idle)
    case GiveEvent => Goto(s.(pool := s.pool + [l.work[0].events[0]]), t, l.(work := [DropEvent(l.work[0])] + l.work[1..]))
    case Return => Goto(SubFree(s, l.work[0]), t, l.(work := l.work[1..]))
    case Finish => Goto(s, t, if l.request_after.Some? then Allocating(l.request_after.value) else Idle)
    case Release(id, live, taken) =>
      Goto(s.(meta := s.meta - PtrsOf(live), index := s.index - {id}, pending := s.pending - multiset(taken)), t,
           Syncing(live, taken, []))
    case SyncEvent => Goto(s.(pool := s.pool + [l.waiting[0].events[0]]), t,
                           l.(waiting := [DropEvent(l.waiting[0])] + l.waiting[1..]))
    case SyncNext => Goto(s, t, l.(waiting := l.waiting[1..], synced := l.synced + [l.waiting[0]]))
    case SyncDone => Goto(s, t, Draining(l.live + l.synced, true, None))
    case RecordStream(ptr, stream) =>
      var m := s.meta[ptr];
      s.(meta := s.meta[ptr := m.(recorded_streams := m.recorded_streams + [stream])])
    case Enqueue(stream) => s.(enqueued := s.enqueued[stream := Count(s.enqueued, stream) + 1])
    case Complete(stream) => s.(completed := s.completed[stream := Count(s.completed, stream) + 1])
  }

  ghost predicate Next(s: State, t: nat, a: Action, s': State) {
    Enabled(s, t, a) && s' == Apply(s, t, a)
  }

  ghost predicate Step(s: State, s': State) {
    exists t, a :: Next(s, t, a, s')
  }

  ghost predicate IsRun(run: seq<State>) {
    && run != [] && run[0] == INITIAL
    && forall i, j :: 0 <= i && j == i + 1 && j < |run| ==> Step(run[i], run[j])
  }

  // ---- the book-keeping behind the invariant -------------------------------------------------------

  datatype Holder = InPending | InThread(tid: nat)

  datatype EventPlace = InPool | InHand(tid: nat) | With(ptr: nat)

  /** late: every allocation off meta_ that is still allocated; holder: who has it; place: who has
      each event. */
  datatype Book = Book(late: map<nat, Entry>, holder: map<nat, Holder>, place: map<nat, EventPlace>)

  ghost function HeldBy(l: Local): seq<Entry> {
    match l
    case Idle => []
    case Allocating(_) => []
    case Obtained(e) => [e]
    case Retiring(e, _, _) => [e]
    case Draining(work, _, _) => work
    case Syncing(live, waiting, synced) => live + synced + waiting
  }

  // The sub-allocators' pointers are the live ones and the late ones, and the records say where from.

  ghost predicate OwnOk(allocated_: map<nat, Owner>, meta: Metas, late: map<nat, Entry>) {
    && (forall p <- meta :: p !in late && p in allocated_ && allocated_[p] == OwnerOf(meta[p]))
    && (forall p <- late :: p in allocated_ && allocated_[p] == OwnerOf(late[p].meta) && late[p].ptr == p)
    && (forall p <- allocated_ :: p in meta || p in late)
  }

  ghost predicate OpenOwn(s: Seal) {
    true
  }

  ghost function Own(allocated_: map<nat, Owner>, meta: Metas, late: map<nat, Entry>): Verdict {
    if forall s {:trigger OpenOwn(s)} :: OpenOwn(s) ==> OwnOk(allocated_, meta, late) then Sound else Broken
  }

  // The pending list holds its entries once each; their events cover every stream.

  /** One event for every stream, none of them given back yet. */
  ghost predicate Deferred(e: Entry) {
    Streams(e.marks) == Needed(e.meta) && |e.events| == |e.marks|
  }

  ghost predicate PendOk(pending: multiset<Entry>, late: map<nat, Entry>, holder: map<nat, Holder>) {
    && holder.Keys == late.Keys
    && (forall e :: e in pending ==> pending[e] == 1 && e.ptr in late && late[e.ptr] == e && holder[e.ptr] == InPending)
    && (forall p <- late :: holder[p] == InPending ==> late[p] in pending && Deferred(late[p]))
  }

  ghost predicate OpenPend(s: Seal) {
    true
  }

  ghost function Pend(pending: multiset<Entry>, late: map<nat, Entry>, holder: map<nat, Holder>): Verdict {
    if forall s {:trigger OpenPend(s)} :: OpenPend(s) ==> PendOk(pending, late, holder) then Sound else Broken
  }

  // Each thread holds its entries once each.

  /** The entry was never deferred, or its events cover every stream. */
  ghost predicate Covered(e: Entry) {
    e.marks == [] || Streams(e.marks) == Needed(e.meta)
  }

  ghost predicate Shape(l: Local) {
    match l
    case Idle => true
    case Allocating(m) => true
    case Obtained(e) => e.events == [] && e.marks == []
    case Retiring(e, todo, fresh_event) => Streams(e.marks) + todo == Needed(e.meta) && |e.events| == |e.marks|
    case Draining(work, _, _) => forall e <- work :: Covered(e)
    case Syncing(live, waiting, synced) =>
      (forall e <- live :: e.events == [] && e.marks == []) && (forall e <- waiting :: Covered(e))
      && (forall e <- synced :: Covered(e) && e.events == [])
  }

  ghost predicate HoldsOne(e: Entry, t: nat, late: map<nat, Entry>, holder: map<nat, Holder>) {
    e.ptr in late && late[e.ptr] == e && e.ptr in holder && holder[e.ptr] == InThread(t)
  }

  ghost predicate HoldsOk(held: seq<Entry>, t: nat, late: map<nat, Entry>, holder: map<nat, Holder>) {
    && (forall i :: 0 <= i < |held| ==> HoldsOne(held[i], t, late, holder))
    && (forall i, j :: 0 <= i < j < |held| ==> held[i].ptr != held[j].ptr)
    && (forall p <- holder :: holder[p] == InThread(t) ==> p in PtrsOf(held))
  }

  ghost predicate HoldOk(threads: map<nat, Local>, late: map<nat, Entry>, holder: map<nat, Holder>) {
    && (forall t <- threads :: HoldsOk(HeldBy(threads[t]), t, late, holder) && Shape(threads[t]))
    && (forall p <- holder :: holder[p].InThread? ==> holder[p].tid in threads)
  }

  ghost predicate OpenHold(s: Seal) {
    true
  }

  ghost function Hold(threads: map<nat, Local>, late: map<nat, Entry>, holder: map<nat, Holder>): Verdict {
    if forall s {:trigger OpenHold(s)} :: OpenHold(s) ==> HoldOk(threads, late, holder) then Sound else Broken
  }

  // Each event is in the pool, with one entry, or in one thread's hand; no event of an entry has
  // been recorded again.

  /** The event is with entry p, and was last recorded at the mark. */
  ghost predicate Awaits(event: nat, p: nat, m: Mark, record: map<nat, Mark>, place: map<nat, EventPlace>) {
    event in place && place[event] == With(p) && event in record && record[event] == m
  }

  ghost predicate EntryEvents(e: Entry, p: nat, record: map<nat, Mark>, place: map<nat, EventPlace>) {
    && |e.events| <= |e.marks|
    && (forall i :: 0 <= i < |e.events| ==> Awaits(e.events[i], p, e.marks[|e.marks| - |e.events| + i], record, place))
    && (forall i, j :: 0 <= i < j < |e.events| ==> e.events[i] != e.events[j])
  }

  ghost predicate PoolEvents(pool: seq<nat>, place: map<nat, EventPlace>) {
    && (forall i :: 0 <= i < |pool| ==> pool[i] in place && place[pool[i]] == InPool)
    && (forall i, j :: 0 <= i < j < |pool| ==> pool[i] != pool[j])
  }

  ghost predicate InHandOf(threads: map<nat, Local>, t: nat, event: nat) {
    t in threads && threads[t].Retiring? && threads[t].fresh_event == Some(event)
  }

  ghost predicate FoundAt(event: nat, place: EventPlace, pool: seq<nat>, late: map<nat, Entry>, threads: map<nat, Local>) {
    match place
    case InPool => event in pool
    case InHand(t) => InHandOf(threads, t, event)
    case With(p) => p in late && event in late[p].events
  }

  ghost predicate AllEntryEvents(late: map<nat, Entry>, record: map<nat, Mark>, place: map<nat, EventPlace>) {
    forall p <- late :: EntryEvents(late[p], p, record, place)
  }

  ghost predicate AllInHand(threads: map<nat, Local>, place: map<nat, EventPlace>) {
    forall t, event :: InHandOf(threads, t, event) ==> event in place && place[event] == InHand(t)
  }

  ghost predicate AllFound(place: map<nat, EventPlace>, pool: seq<nat>, late: map<nat, Entry>, threads: map<nat, Local>) {
    forall event <- place :: FoundAt(event, place[event], pool, late, threads)
  }

  ghost predicate EventsOk(pool: seq<nat>, record: map<nat, Mark>, place: map<nat, EventPlace>,
                           late: map<nat, Entry>, threads: map<nat, Local>)
  {
    && place.Keys == record.Keys
    && AllEntryEvents(late, record, place)
    && PoolEvents(pool, place)
    && AllInHand(threads, place)
    && AllFound(place, pool, late, threads)
  }

  ghost predicate OpenEvents(s: Seal) {
    true
  }

  ghost function Events(pool: seq<nat>, record: map<nat, Mark>, place: map<nat, EventPlace>,
                        late: map<nat, Entry>, threads: map<nat, Local>): Verdict
  {
    if forall s {:trigger OpenEvents(s)} :: OpenEvents(s) ==> EventsOk(pool, record, place, late, threads) then Sound else Broken
  }

  // What an entry no longer waits for has completed.

  ghost predicate WaitedFor(e: Entry, completed: map<int, nat>) {
    forall i :: 0 <= i < |e.marks| - |e.events| ==> Reached(completed, e.marks[i])
  }

  ghost predicate AllReached(e: Entry, completed: map<int, nat>) {
    forall i :: 0 <= i < |e.marks| ==> Reached(completed, e.marks[i])
  }

  ghost predicate WaitsOk(late: map<nat, Entry>, threads: map<nat, Local>, completed: map<int, nat>) {
    && (forall p <- late :: WaitedFor(late[p], completed))
    && (forall t <- threads :: threads[t].Draining? && threads[t].checked ==> forall e <- threads[t].work :: AllReached(e, completed))
  }

  ghost predicate OpenWaits(s: Seal) {
    true
  }

  ghost function Waits(late: map<nat, Entry>, threads: map<nat, Local>, completed: map<int, nat>): Verdict {
    if forall s {:trigger OpenWaits(s)} :: OpenWaits(s) ==> WaitsOk(late, threads, completed) then Sound else Broken
  }

  ghost predicate Consistent(s: State, b: Book) {
    && Own(s.allocated_, s.meta, b.late).Sound?
    && Pend(s.pending, b.late, b.holder).Sound?
    && Hold(s.threads, b.late, b.holder).Sound?
    && Events(s.pool, s.record, b.place, b.late, s.threads).Sound?
    && Waits(b.late, s.threads, s.completed).Sound?
    && Indexed(s.meta, map[], s.index).Sound?
    && !s.fault
  }
}

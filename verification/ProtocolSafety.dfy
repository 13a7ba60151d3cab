/** The protocol is safe in every run: conservation of pointers, no unknown pointer, the pool index,
    and deferred frees that wait for the GPU (csrc/vmm_allocator.cc). */
module ProtocolSafety {
  import opened Common
  import opened Ledger
  import opened Protocol
  import opened ProtocolSteps

  lemma LatePtrs(allocated_: map<nat, Owner>, meta: Metas, late: map<nat, Entry>)
    requires Own(allocated_, meta, late).Sound?
    ensures forall p <- late :: late[p].ptr == p && p !in meta && p in allocated_ && allocated_[p] == OwnerOf(late[p].meta)
  {
    assert OpenOwn(Seal);
  }

  /** A thread that only moves on, holding what it held. */
  lemma MovesOn(s: State, b: Book, t: nat, l: Local)
    requires Consistent(s, b) && HeldBy(l) == HeldBy(LocalOf(s, t)) && Shape(l)
    requires l.Retiring? ==> l.fresh_event.None?
    requires LocalOf(s, t).Retiring? ==> LocalOf(s, t).fresh_event.None?
    requires l.Draining? && l.checked ==> forall e <- l.work :: AllReached(e, s.completed)
    ensures Consistent(Goto(s, t, l), b)
  {
    LocalHolds(s.threads, b.late, b.holder, s, t);
    HoldChange(s.threads, b.late, b.holder, t, l, b.late, b.holder);
    EventsGoto(s.pool, s.record, b.place, b.late, s.threads, t, l);
    WaitsGoto(b.late, s.threads, s.completed, t, l);
  }

  lemma StepStart(s: State, b: Book, t: nat, m: AllocMeta)
    requires Consistent(s, b) && Enabled(s, t, Start(m))
    ensures Consistent(Apply(s, t, Start(m)), b)
  {
    MovesOn(s, b, t, Allocating(m));
  }

  lemma StepGiveUp(s: State, b: Book, t: nat)
    requires Consistent(s, b) && Enabled(s, t, GiveUp)
    ensures Consistent(Apply(s, t, GiveUp), b)
  {
    MovesOn(s, b, t, Idle);
  }

  lemma StepFinish(s: State, b: Book, t: nat)
    requires Consistent(s, b) && Enabled(s, t, Finish)
    ensures Consistent(Apply(s, t, Finish), b)
  {
    var l := LocalOf(s, t);
    MovesOn(s, b, t, if l.request_after.Some? then Allocating(l.request_after.value) else Idle);
  }

  lemma StepSyncNext(s: State, b: Book, t: nat)
    requires Consistent(s, b) && Enabled(s, t, SyncNext)
    ensures Consistent(Apply(s, t, SyncNext), b)
  {
    var l := LocalOf(s, t);
    LocalHolds(s.threads, b.late, b.holder, s, t);
    var next := l.(waiting := l.waiting[1..], synced := l.synced + [l.waiting[0]]);
    assert l.live + (l.synced + [l.waiting[0]]) + l.waiting[1..] == l.live + l.synced + l.waiting;
    assert (forall e <- next.waiting :: e in l.waiting) && l.waiting[0] in l.waiting;
    assert forall e <- next.synced :: e in l.synced || e == l.waiting[0];
    assert Shape(next);
    MovesOn(s, b, t, next);
  }

  lemma WaitedIsReached(s: State, b: Book, e: Entry)
    requires Consistent(s, b) && e.ptr in b.late && b.late[e.ptr] == e && e.events == []
    ensures AllReached(e, s.completed)
  {
    assert OpenWaits(Seal);
    assert WaitedFor(e, s.completed);
  }

  lemma StepSyncDone(s: State, b: Book, t: nat)
    requires Consistent(s, b) && Enabled(s, t, SyncDone)
    ensures Consistent(Apply(s, t, SyncDone), b)
  {
    var l := LocalOf(s, t);
    LocalHolds(s.threads, b.late, b.holder, s, t);
    var held := HeldBy(l);
    assert l.live + l.synced + l.waiting == l.live + l.synced;
    forall e | e in l.live + l.synced
      ensures AllReached(e, s.completed) && Covered(e)
    {
      assert e in held && e.events == [];
      var i :| 0 <= i < |held| && held[i] == e;
      assert HoldsOne(held[i], t, b.late, b.holder);
      WaitedIsReached(s, b, e);
    }
    MovesOn(s, b, t, Draining(l.live + l.synced, true, None));
  }

  // ---- allocating ------------------------------------------------------------------------------------

  /** A thread that held nothing comes to hold an entry that was not late before. */
  lemma Arrives(s: State, b: Book, t: nat, e: Entry, l: Local) returns (b': Book)
    requires Consistent(s, b) && HeldBy(LocalOf(s, t)) == [] && HeldBy(l) == [e] && Shape(l) && e.ptr !in b.late
    requires e.events == [] && e.marks == []
    requires l.Retiring? ==> l.fresh_event.None?
    ensures b' == b.(late := b.late[e.ptr := e], holder := b.holder[e.ptr := InThread(t)])
    ensures Pend(s.pending, b'.late, b'.holder).Sound? && Hold(s.threads[t := l], b'.late, b'.holder).Sound?
    ensures Events(s.pool, s.record, b.place, b'.late, s.threads[t := l]).Sound?
    ensures Waits(b'.late, s.threads[t := l], s.completed).Sound?
  {
    b' := b.(late := b.late[e.ptr := e], holder := b.holder[e.ptr := InThread(t)]);
    HolderKeys(s.pending, b.late, b.holder);
    PendKept(s.pending, b.late, b.holder, b'.late, b'.holder);
    LocalHolds(s.threads, b.late, b.holder, s, t);
    NewHeld(e, t, b.late, b.holder);
    HoldChange(s.threads, b.late, b.holder, t, l, b'.late, b'.holder);
    EventsPlain(s.pool, s.record, b.place, b.late, s.threads, b'.late);
    EventsGoto(s.pool, s.record, b.place, b'.late, s.threads, t, l);
    WaitsChange(b.late, s.threads, s.completed, b'.late);
    WaitsGoto(b'.late, s.threads, s.completed, t, l);
  }

  lemma NewHeld(e: Entry, t: nat, late: map<nat, Entry>, holder: map<nat, Holder>)
    requires HoldsOk([], t, late, holder) && e.ptr !in holder
    ensures HoldsOk([e], t, late[e.ptr := e], holder[e.ptr := InThread(t)])
    ensures OthersKept(t, late, holder, late[e.ptr := e], holder[e.ptr := InThread(t)])
  {
    assert e in [e];
    assert forall p <- holder :: holder[p] == InThread(t) ==> p in PtrsOf([]);
  }

  lemma StepGrab(s: State, b: Book, t: nat, p: nat) returns (b': Book)
    requires Consistent(s, b) && Enabled(s, t, Grab(p))
    ensures Consistent(Apply(s, t, Grab(p)), b')
  {
    var m := LocalOf(s, t).request;
    OwnGrab(s.allocated_, s.meta, b.late, p, m);
    b' := Arrives(s, b, t, Plain(p, m), Obtained(Plain(p, m)));
  }

  /** The first entry a thread holds leaves for good; it has no events any more. */
  lemma Leaves(s: State, b: Book, t: nat, e: Entry, l: Local) returns (b': Book)
    requires Consistent(s, b) && HeldBy(LocalOf(s, t)) != [] && e == HeldBy(LocalOf(s, t))[0] && e.events == []
    requires HeldBy(l) == HeldBy(LocalOf(s, t))[1..] && Shape(l) && !l.Retiring? && !LocalOf(s, t).Retiring?
    requires l.Draining? && l.checked ==> forall f <- l.work :: AllReached(f, s.completed)
    ensures e.ptr in b.late && b.late[e.ptr] == e && b' == b.(late := b.late - {e.ptr}, holder := b.holder - {e.ptr})
    ensures Pend(s.pending, b'.late, b'.holder).Sound? && Hold(s.threads[t := l], b'.late, b'.holder).Sound?
    ensures Events(s.pool, s.record, b.place, b'.late, s.threads[t := l]).Sound?
    ensures Waits(b'.late, s.threads[t := l], s.completed).Sound?
  {
    var held := HeldBy(LocalOf(s, t));
    LocalHolds(s.threads, b.late, b.holder, s, t);
    FirstHeld(held, t, b.late, b.holder);
    RestHeld(held, t, b.late, b.holder);
    b' := b.(late := b.late - {e.ptr}, holder := b.holder - {e.ptr});
    HolderKeys(s.pending, b.late, b.holder);
    PendKept(s.pending, b.late, b.holder, b'.late, b'.holder);
    HoldChange(s.threads, b.late, b.holder, t, l, b'.late, b'.holder);
    EventsPlain(s.pool, s.record, b.place, b.late, s.threads, b'.late);
    EventsGoto(s.pool, s.record, b.place, b'.late, s.threads, t, l);
    WaitsChange(b.late, s.threads, s.completed, b'.late);
    WaitsGoto(b'.late, s.threads, s.completed, t, l);
  }

  lemma StepInsert(s: State, b: Book, t: nat) returns (b': Book)
    requires Consistent(s, b) && Enabled(s, t, Insert)
    ensures Consistent(Apply(s, t, Insert), b')
  {
    var e := LocalOf(s, t).entry;
    LocalHolds(s.threads, b.late, b.holder, s, t);
    b' := Leaves(s, b, t, e, Idle);
    OwnInsert(s.allocated_, s.meta, b.late, e.ptr);
    IndexAdd(s.meta, map[], s.index, e.ptr, e.meta);
  }

  // ---- freeing -----------------------------------------------------------------------------------------

  /** Thread t, which held nothing, takes p off meta_. */
  lemma TakesOff(s: State, b: Book, t: nat, p: nat, l: Local) returns (b': Book)
    requires Consistent(s, b) && LocalOf(s, t).Idle? && p in s.meta
    requires HeldBy(l) == [Plain(p, s.meta[p])] && Shape(l) && (l.Retiring? ==> l.fresh_event.None?)
    ensures Consistent(Goto(s.(meta := s.meta - {p}, index := Delist(s.index, s.meta[p].pool_id, p)), t, l), b')
  {
    OwnRetire(s.allocated_, s.meta, b.late, p);
    IndexRetire(s.meta, s.index, p);
    b' := Arrives(s, b, t, Plain(p, s.meta[p]), l);
  }

  lemma StepFree(s: State, b: Book, t: nat, p: nat) returns (b': Book)
    requires Consistent(s, b) && Enabled(s, t, Free(p))
    ensures Consistent(Apply(s, t, Free(p)), b')
  {
    var m := s.meta[p];
    var e := Plain(p, m);
    if m.recorded_streams == [] {
      b' := TakesOff(s, b, t, p, Draining([e], true, None));
    } else {
      assert Streams([]) + Needed(m) == Needed(m);
      b' := TakesOff(s, b, t, p, Retiring(e, Needed(m), None));
    }
  }

  lemma IndexRetire(meta: Metas, index: PoolIndex, p: nat)
    requires Indexed(meta, map[], index).Sound? && p in meta
    ensures Indexed(meta - {p}, map[], Delist(index, meta[p].pool_id, p)).Sound?
  {
    IndexDefer(meta, map[], index, p);
    IndexShrink(meta - {p}, map[p := meta[p]], Delist(index, meta[p].pool_id, p), {p});
    assert map[p := meta[p]] - {p} == map[];
  }

  lemma StepReturn(s: State, b: Book, t: nat) returns (b': Book)
    requires Consistent(s, b) && Enabled(s, t, Return)
    ensures Consistent(Apply(s, t, Return), b')
  {
    var l := LocalOf(s, t);
    var next := l.(work := l.work[1..]);
    LocalHolds(s.threads, b.late, b.holder, s, t);
    DrainingReached(b.late, s.threads, s.completed, s, t);
    assert forall e <- next.work :: e in l.work;
    b' := Leaves(s, b, t, l.work[0], next);
    OwnReturn(s.allocated_, s.meta, b.late, l.work[0].ptr);
  }

  lemma DrainingReached(late: map<nat, Entry>, threads: map<nat, Local>, completed: map<int, nat>, s: State, t: nat)
    requires Waits(late, threads, completed).Sound? && threads == s.threads
    ensures var l := LocalOf(s, t); l.Draining? && l.checked ==> forall e <- l.work :: AllReached(e, completed)
  {
    assert OpenWaits(Seal);
  }

  // ---- events ------------------------------------------------------------------------------------------

  /** The thread keeps its entries while it acquires an event. */
  lemma AcquireKeeps(s: State, b: Book, t: nat, event: nat)
    requires Consistent(s, b) && LocalOf(s, t).Retiring? && LocalOf(s, t).fresh_event.None?
    ensures var l := LocalOf(s, t).(fresh_event := Some(event));
            && t in s.threads && s.threads[t] == Retiring(l.entry, l.todo, None)
            && Hold(s.threads[t := l], b.late, b.holder).Sound? && Waits(b.late, s.threads[t := l], s.completed).Sound?
  {
    var l := LocalOf(s, t).(fresh_event := Some(event));
    LocalHolds(s.threads, b.late, b.holder, s, t);
    HoldChange(s.threads, b.late, b.holder, t, l, b.late, b.holder);
    WaitsGoto(b.late, s.threads, s.completed, t, l);
  }

  lemma StepAcquireOld(s: State, b: Book, t: nat) returns (b': Book)
    requires Consistent(s, b) && Enabled(s, t, AcquireOld)
    ensures Consistent(Apply(s, t, AcquireOld), b')
  {
    var l := LocalOf(s, t);
    var event := s.pool[|s.pool| - 1];
    b' := b.(place := b.place[event := InHand(t)]);
    AcquireKeeps(s, b, t, event);
    EventsAcquireOld(s.pool, s.record, b.place, b.late, s.threads, t, l.entry, l.todo);
  }

  lemma StepAcquireNew(s: State, b: Book, t: nat, event: nat) returns (b': Book)
    requires Consistent(s, b) && Enabled(s, t, AcquireNew(event))
    ensures Consistent(Apply(s, t, AcquireNew(event)), b')
  {
    var l := LocalOf(s, t);
    b' := b.(place := b.place[event := InHand(t)]);
    AcquireKeeps(s, b, t, event);
    EventsAcquireNew(s.pool, s.record, b.place, b.late, s.threads, t, l.entry, l.todo, event, Mark(0, 0));
  }

  /** One entry of thread t takes a new form. */
  lemma Reshape(s: State, b: Book, t: nat, k: nat, e: Entry, l: Local) returns (late': map<nat, Entry>)
    requires Consistent(s, b) && k < |HeldBy(LocalOf(s, t))| && Shape(l)
    requires e.ptr == HeldBy(LocalOf(s, t))[k].ptr && e.meta == HeldBy(LocalOf(s, t))[k].meta
    requires HeldBy(l) == HeldBy(LocalOf(s, t))[k := e] && WaitedFor(e, s.completed)
    requires l.Draining? && l.checked ==> forall f <- l.work :: AllReached(f, s.completed)
    ensures late' == b.late[e.ptr := e]
    ensures Own(s.allocated_, s.meta, late').Sound? && Pend(s.pending, late', b.holder).Sound?
    ensures Hold(s.threads[t := l], late', b.holder).Sound? && Waits(late', s.threads[t := l], s.completed).Sound?
  {
    var held := HeldBy(LocalOf(s, t));
    late' := b.late[e.ptr := e];
    LocalHolds(s.threads, b.late, b.holder, s, t);
    assert HoldsOne(held[k], t, b.late, b.holder);
    OwnTouch(s.allocated_, s.meta, b.late, e);
    HolderKeys(s.pending, b.late, b.holder);
    PendKept(s.pending, b.late, b.holder, late', b.holder);
    ReplaceHeld(held, k, e, t, b.late, b.holder);
    HoldChange(s.threads, b.late, b.holder, t, l, late', b.holder);
    WaitsChange(b.late, s.threads, s.completed, late');
    WaitsGoto(late', s.threads, s.completed, t, l);
  }

  lemma StepRecordEvent(s: State, b: Book, t: nat) returns (b': Book)
    requires Consistent(s, b) && Enabled(s, t, RecordEvent)
    ensures Consistent(Apply(s, t, RecordEvent), b')
  {
    var l := LocalOf(s, t);
    var e, event, m := l.entry, l.fresh_event.value, Mark(l.todo[0], Count(s.enqueued, l.todo[0]));
    var e' := e.(events := e.events + [event], marks := e.marks + [m]);
    var next := Retiring(e', l.todo[1..], None);
    LocalHolds(s.threads, b.late, b.holder, s, t);
    FirstHeld([e], t, b.late, b.holder);
    assert Streams(e'.marks) + next.todo == Streams(e.marks) + l.todo;
    assert [e][0 := e'] == [e'];
    var late' := Reshape(s, b, t, 0, e', next);
    EventsRecord(s.pool, s.record, b.place, b.late, s.threads, t, e, l.todo, event, m, e', next);
    b' := b.(late := late', place := b.place[event := With(e.ptr)]);
  }

  lemma StepPush(s: State, b: Book, t: nat) returns (b': Book)
    requires Consistent(s, b) && Enabled(s, t, Push)
    ensures Consistent(Apply(s, t, Push), b')
  {
    var l := LocalOf(s, t);
    var e := l.entry;
    LocalHolds(s.threads, b.late, b.holder, s, t);
    FirstHeld([e], t, b.late, b.holder);
    assert Streams(e.marks) + [] == Streams(e.marks);
    b' := b.(holder := b.holder[e.ptr := InPending]);
    PendPush(s.pending, b.late, b.holder, e);
    Unheld(e, t, b.late, b.holder);
    HoldChange(s.threads, b.late, b.holder, t, Idle, b.late, b'.holder);
    EventsGoto(s.pool, s.record, b.place, b.late, s.threads, t, Idle);
    WaitsGoto(b.late, s.threads, s.completed, t, Idle);
  }

  lemma Unheld(e: Entry, t: nat, late: map<nat, Entry>, holder: map<nat, Holder>)
    requires HoldsOk([e], t, late, holder)
    ensures HoldsOk([], t, late, holder[e.ptr := InPending]) && OthersKept(t, late, holder, late, holder[e.ptr := InPending])
  {
    FirstHeld([e], t, late, holder);
    assert forall p <- holder :: holder[p] == InThread(t) ==> p in PtrsOf([e]);
    assert forall p <- PtrsOf([e]) :: p == e.ptr;
  }

  // ---- giving events back --------------------------------------------------------------------------------

  lemma DroppedWaits(s: State, b: Book, e: Entry, p: nat)
    requires Consistent(s, b) && p in b.late && b.late[p] == e && e.events != []
    requires EventDone(s, e.events[0]) || AllReached(e, s.completed)
    ensures WaitedFor(DropEvent(e), s.completed)
  {
    assert OpenWaits(Seal) && OpenEvents(Seal);
    assert WaitedFor(e, s.completed) && EntryEvents(e, p, s.record, b.place);
    assert Awaits(e.events[0], p, e.marks[|e.marks| - |e.events|], s.record, b.place);
  }

  /** The head of a list gives its first event back to the pool. */
  lemma GiveHead(s: State, b: Book, t: nat, k: nat, e: Entry, l: Local) returns (b': Book)
    requires Consistent(s, b) && k < |HeldBy(LocalOf(s, t))| && Shape(l) && e == HeldBy(LocalOf(s, t))[k] && e.events != []
    requires HeldBy(l) == HeldBy(LocalOf(s, t))[k := DropEvent(e)]
    requires EventDone(s, e.events[0]) || AllReached(e, s.completed)
    requires l.Draining? && l.checked ==> forall f <- l.work :: AllReached(f, s.completed)
    requires !l.Retiring? && !LocalOf(s, t).Retiring?
    ensures Consistent(Goto(s.(pool := s.pool + [e.events[0]]), t, l), b')
  {
    LocalHolds(s.threads, b.late, b.holder, s, t);
    assert HoldsOne(HeldBy(LocalOf(s, t))[k], t, b.late, b.holder);
    DroppedWaits(s, b, e, e.ptr);
    var late' := Reshape(s, b, t, k, DropEvent(e), l);
    b' := b.(late := late', place := b.place[e.events[0] := InPool]);
    EventsGive(s.pool, s.record, b.place, b.late, s.threads, e, s.pool + [e.events[0]], b'.place, b'.late);
    EventsGoto(s.pool + [e.events[0]], s.record, b'.place, b'.late, s.threads, t, l);
  }

  lemma StepGiveEvent(s: State, b: Book, t: nat) returns (b': Book)
    requires Consistent(s, b) && Enabled(s, t, GiveEvent)
    ensures Consistent(Apply(s, t, GiveEvent), b')
  {
    var l := LocalOf(s, t);
    var e := l.work[0];
    var next := l.(work := [DropEvent(e)] + l.work[1..]);
    LocalHolds(s.threads, b.late, b.holder, s, t);
    DrainingReached(b.late, s.threads, s.completed, s, t);
    assert e in l.work;
    assert HeldBy(next) == l.work[0 := DropEvent(e)];
    assert forall f <- next.work :: f == DropEvent(e) || f in l.work;
    b' := GiveHead(s, b, t, 0, e, next);
  }

  lemma StepSyncEvent(s: State, b: Book, t: nat) returns (b': Book)
    requires Consistent(s, b) && Enabled(s, t, SyncEvent)
    ensures Consistent(Apply(s, t, SyncEvent), b')
  {
    var l := LocalOf(s, t);
    var e := l.waiting[0];
    var next := l.(waiting := [DropEvent(e)] + l.waiting[1..]);
    var k := |l.live + l.synced|;
    LocalHolds(s.threads, b.late, b.holder, s, t);
    assert e in l.waiting;
    assert HeldBy(l)[k] == e && HeldBy(next) == HeldBy(l)[k := DropEvent(e)];
    assert forall f <- next.waiting :: f == DropEvent(e) || f in l.waiting;
    b' := GiveHead(s, b, t, k, e, next);
  }

  // ---- taking from the pending list ------------------------------------------------------------------------

  lemma TakesSome(pending: multiset<Entry>, taken: seq<Entry>, chosen: Entry -> bool)
    requires TakesAll(pending, taken, chosen)
    ensures multiset(taken) <= pending
  {
    forall e
      ensures multiset(taken)[e] <= pending[e]
    {
    }
  }

  /** A thread that held nothing takes entries off the pending list. */
  lemma Takes(s: State, b: Book, t: nat, taken: seq<Entry>, l: Local) returns (b': Book)
    requires Consistent(s, b) && HeldBy(LocalOf(s, t)) == [] && multiset(taken) <= s.pending
    requires HeldBy(l) == taken && !l.Retiring?
    requires (forall e <- taken :: Covered(e)) ==> Shape(l)
    requires l.Draining? && l.checked ==> forall e <- l.work :: AllReached(e, s.completed)
    ensures b' == b.(holder := Reassign(b.holder, PtrsOf(taken), t))
    ensures Consistent(Goto(s.(pending := s.pending - multiset(taken)), t, l), b')
  {
    b' := b.(holder := Reassign(b.holder, PtrsOf(taken), t));
    LatePtrs(s.allocated_, s.meta, b.late);
    LocalHolds(s.threads, b.late, b.holder, s, t);
    NothingHeld(t, b.late, b.holder);
    PendTake(s.pending, b.late, b.holder, taken, t);
    TakenHeld(s.pending, b.late, b.holder, taken, t);
    TakenCovered(s.pending, b.late, b.holder, taken);
    TakenFromPending(s.pending, b.late, b.holder, taken, t);
    HoldChange(s.threads, b.late, b.holder, t, l, b.late, b'.holder);
    EventsGoto(s.pool, s.record, b.place, b.late, s.threads, t, l);
    WaitsGoto(b.late, s.threads, s.completed, t, l);
  }

  lemma NothingHeld(t: nat, late: map<nat, Entry>, holder: map<nat, Holder>)
    requires HoldsOk([], t, late, holder)
    ensures forall p <- holder :: holder[p] != InThread(t)
  {
    assert PtrsOf([]) == {};
  }

  lemma TakenCovered(pending: multiset<Entry>, late: map<nat, Entry>, holder: map<nat, Holder>, taken: seq<Entry>)
    requires Pend(pending, late, holder).Sound? && multiset(taken) <= pending
    ensures forall e <- taken :: Covered(e) && e.ptr in late && late[e.ptr] == e
  {
    forall e | e in taken
      ensures Covered(e) && e.ptr in late && late[e.ptr] == e
    {
      var i :| 0 <= i < |taken| && taken[i] == e;
      TakenArePending(pending, late, holder, taken, i);
    }
  }

  lemma TakenFromPending(pending: multiset<Entry>, late: map<nat, Entry>, holder: map<nat, Holder>, taken: seq<Entry>, t: nat)
    requires Pend(pending, late, holder).Sound? && multiset(taken) <= pending
    ensures OthersKept(t, late, holder, late, Reassign(holder, PtrsOf(taken), t))
  {
    forall p | p in PtrsOf(taken)
      ensures p in holder && holder[p] == InPending
    {
      var f :| f in taken && f.ptr == p;
      var i :| 0 <= i < |taken| && taken[i] == f;
      TakenArePending(pending, late, holder, taken, i);
    }
  }

  /** Entries whose events all query as done have nothing left to wait for. */
  lemma PolledReached(s: State, b: Book, e: Entry)
    requires Consistent(s, b) && e.ptr in b.late && b.late[e.ptr] == e
    requires forall event <- e.events :: EventDone(s, event)
    ensures AllReached(e, s.completed)
  {
    assert OpenWaits(Seal) && OpenEvents(Seal);
    assert WaitedFor(e, s.completed) && EntryEvents(e, e.ptr, s.record, b.place);
    var k := |e.marks| - |e.events|;
    forall i | 0 <= i < |e.marks|
      ensures Reached(s.completed, e.marks[i])
    {
      if i >= k {
        assert Awaits(e.events[i - k], e.ptr, e.marks[k + (i - k)], s.record, b.place);
        assert EventDone(s, e.events[i - k]);
      }
    }
  }

  lemma StepPoll(s: State, b: Book, t: nat, taken: seq<Entry>) returns (b': Book)
    requires Consistent(s, b) && Enabled(s, t, Poll(taken))
    ensures Consistent(Apply(s, t, Poll(taken)), b')
  {
    TakenCovered(s.pending, b.late, b.holder, taken);
    forall e | e in taken
      ensures AllReached(e, s.completed)
    {
      PolledReached(s, b, e);
    }
    b' := Takes(s, b, t, taken, Draining(taken, true, Some(LocalOf(s, t).request)));
  }

  lemma StepForce(s: State, b: Book, t: nat, device: int, taken: seq<Entry>) returns (b': Book)
    requires Consistent(s, b) && Enabled(s, t, Force(device, taken))
    ensures Consistent(Apply(s, t, Force(device, taken)), b')
  {
    var l := LocalOf(s, t);
    TakesSome(s.pending, taken, (e: Entry) => e.meta.device == device);
    b' := Takes(s, b, t, taken, Draining(taken, false, if l.Allocating? then Some(l.request) else None));
  }

  // ---- releasing a pool ----------------------------------------------------------------------------------------

  ghost function PlainOf(meta: Metas, ptrs: set<nat>): map<nat, Entry> {
    map p | p in ptrs && p in meta :: Plain(p, meta[p])
  }

  ghost function HandTo(ptrs: set<nat>, t: nat): map<nat, Holder> {
    map p | p in ptrs :: InThread(t)
  }

  lemma OwnRetireAll(allocated_: map<nat, Owner>, meta: Metas, late: map<nat, Entry>, ptrs: set<nat>)
    requires Own(allocated_, meta, late).Sound? && ptrs <= meta.Keys
    ensures Own(allocated_, meta - ptrs, late + PlainOf(meta, ptrs)).Sound?
    ensures forall p <- ptrs :: p !in late
  {
    assert OpenOwn(Seal);
  }

  lemma LiveJoins(live: seq<Entry>, taken: seq<Entry>, t: nat, meta: Metas, ids: set<nat>,
                  late: map<nat, Entry>, holder: map<nat, Holder>)
    requires HoldsOk(taken, t, late, holder) && ListsLive(meta, ids, live)
    requires late.Keys == holder.Keys && forall p <- PtrsOf(live) :: p !in late
    ensures HoldsOk(live + [] + taken, t, late + PlainOf(meta, PtrsOf(live)), holder + HandTo(PtrsOf(live), t))
    ensures OthersKept(t, late, holder, late + PlainOf(meta, PtrsOf(live)), holder + HandTo(PtrsOf(live), t))
  {
    var late', holder', all := late + PlainOf(meta, PtrsOf(live)), holder + HandTo(PtrsOf(live), t), live + [] + taken;
    assert forall i :: 0 <= i < |live| ==> live[i] in live && live[i].ptr in PtrsOf(live);
    forall i | 0 <= i < |all|
      ensures HoldsOne(all[i], t, late', holder')
    {
      if i >= |live| {
        assert HoldsOne(taken[i - |live|], t, late, holder);
      }
    }
    forall i, j | 0 <= i < j < |all|
      ensures all[i].ptr != all[j].ptr
    {
      assert i >= |live| ==> HoldsOne(taken[i - |live|], t, late, holder);
      assert j >= |live| ==> HoldsOne(taken[j - |live|], t, late, holder);
    }
    forall p | p in holder' && holder'[p] == InThread(t)
      ensures p in PtrsOf(all)
    {
      if p in PtrsOf(live) {
        var e :| e in live && e.ptr == p;
        assert e in all;
      } else {
        assert p in PtrsOf(taken);
        var e :| e in taken && e.ptr == p;
        assert e in all;
      }
    }
  }

  lemma LivePtrs(meta: Metas, ids: set<nat>, live: seq<Entry>)
    requires ListsLive(meta, ids, live)
    ensures PtrsOf(live) <= meta.Keys
  {
    forall p | p in PtrsOf(live)
      ensures p in meta
    {
      var e :| e in live && e.ptr == p;
    }
  }

  lemma PendJoined(pending: multiset<Entry>, late: map<nat, Entry>, holder: map<nat, Holder>, meta: Metas, ptrs: set<nat>, t: nat)
    requires Pend(pending, late, holder).Sound? && ptrs <= meta.Keys && forall p <- ptrs :: p !in late
    ensures Pend(pending, late + PlainOf(meta, ptrs), holder + HandTo(ptrs, t)).Sound?
  {
    HolderKeys(pending, late, holder);
    assert (holder + HandTo(ptrs, t)).Keys == (late + PlainOf(meta, ptrs)).Keys;
    PendKept(pending, late, holder, late + PlainOf(meta, ptrs), holder + HandTo(ptrs, t));
  }

  /** The live allocations of a pool join what the thread has taken off the pending list. */
  lemma LiveTaken(s: State, b: Book, t: nat, ids: set<nat>, live: seq<Entry>, taken: seq<Entry>, l: Local) returns (b': Book)
    requires Consistent(s, b) && LocalOf(s, t) == Syncing([], taken, []) && ListsLive(s.meta, ids, live)
    requires l == Syncing(live, taken, [])
    ensures Own(s.allocated_, s.meta - PtrsOf(live), b'.late).Sound? && Pend(s.pending, b'.late, b'.holder).Sound?
    ensures Hold(s.threads[t := l], b'.late, b'.holder).Sound?
    ensures Events(s.pool, s.record, b'.place, b'.late, s.threads[t := l]).Sound?
    ensures Waits(b'.late, s.threads[t := l], s.completed).Sound?
  {
    var ptrs := PtrsOf(live);
    LivePtrs(s.meta, ids, live);
    OwnRetireAll(s.allocated_, s.meta, b.late, ptrs);
    b' := b.(late := b.late + PlainOf(s.meta, ptrs), holder := b.holder + HandTo(ptrs, t));
    PendJoined(s.pending, b.late, b.holder, s.meta, ptrs, t);
    LiveHolds(s, b, t, ids, live, taken, l);
    EventsPlain(s.pool, s.record, b.place, b.late, s.threads, b'.late);
    EventsGoto(s.pool, s.record, b.place, b'.late, s.threads, t, l);
    WaitsChange(b.late, s.threads, s.completed, b'.late);
    WaitsGoto(b'.late, s.threads, s.completed, t, l);
  }

  lemma LiveHolds(s: State, b: Book, t: nat, ids: set<nat>, live: seq<Entry>, taken: seq<Entry>, l: Local)
    requires Consistent(s, b) && LocalOf(s, t) == Syncing([], taken, []) && ListsLive(s.meta, ids, live)
    requires l == Syncing(live, taken, []) && forall p <- PtrsOf(live) :: p !in b.late
    ensures Hold(s.threads[t := l], b.late + PlainOf(s.meta, PtrsOf(live)), b.holder + HandTo(PtrsOf(live), t)).Sound?
  {
    LocalHolds(s.threads, b.late, b.holder, s, t);
    HolderKeys(s.pending, b.late, b.holder);
    assert HeldBy(LocalOf(s, t)) == taken;
    LiveJoins(live, taken, t, s.meta, ids, b.late, b.holder);
    HoldChange(s.threads, b.late, b.holder, t, l, b.late + PlainOf(s.meta, PtrsOf(live)), b.holder + HandTo(PtrsOf(live), t));
  }

  lemma LiveIsTagged(meta: Metas, index: PoolIndex, id: PoolId, live: seq<Entry>)
    requires Indexed(meta, map[], index).Sound? && id in index && ListsLive(meta, index[id], live)
    ensures PtrsOf(live) == Tagged(meta, id) && Indexed(meta - PtrsOf(live), map[], index - {id}).Sound?
  {
    EntryIsTagged(meta, map[], index, id);
    forall p
      ensures p in PtrsOf(live) <==> p in Tagged(meta, id)
    {
      if p in PtrsOf(live) {
        var e :| e in live && e.ptr == p;
      }
    }
    IndexReleased(meta, map[], index, id, meta - PtrsOf(live), map[]);
  }

  lemma StepRelease(s: State, b: Book, t: nat, id: PoolId, live: seq<Entry>, taken: seq<Entry>) returns (b': Book)
    requires Consistent(s, b) && Enabled(s, t, Release(id, live, taken))
    ensures Consistent(Apply(s, t, Release(id, live, taken)), b')
  {
    var none: seq<Entry> := [];
    TakesSome(s.pending, taken, (e: Entry) => e.meta.pool_id == id);
    assert none + none + taken == taken;
    var b1 := Takes(s, b, t, taken, Syncing(none, taken, none));
    var s1 := Goto(s.(pending := s.pending - multiset(taken)), t, Syncing(none, taken, none));
    b' := LiveTaken(s1, b1, t, s.index[id], live, taken, Syncing(live, taken, none));
    LiveIsTagged(s.meta, s.index, id, live);
    assert s1.threads[t := Syncing(live, taken, none)] == s.threads[t := Syncing(live, taken, none)];
  }

  // ---- the rest --------------------------------------------------------------------------------------------------

  lemma StepRecordStream(s: State, b: Book, t: nat, p: nat, stream: int)
    requires Consistent(s, b) && Enabled(s, t, RecordStream(p, stream))
    ensures Consistent(Apply(s, t, RecordStream(p, stream)), b)
  {
    var m := s.meta[p].(recorded_streams := s.meta[p].recorded_streams + [stream]);
    OwnRetag(s.allocated_, s.meta, b.late, p, m);
    IndexRetag(s.meta, map[], s.index, p, m);
  }

  lemma StepComplete(s: State, b: Book, t: nat, stream: int)
    requires Consistent(s, b) && Enabled(s, t, Complete(stream))
    ensures Consistent(Apply(s, t, Complete(stream)), b)
  {
    WaitsComplete(b.late, s.threads, s.completed, stream);
  }

  lemma AllocatingKeeps(s: State, b: Book, t: nat, a: Action) returns (b': Book)
    requires Consistent(s, b) && Enabled(s, t, a) && Allocates(a)
    ensures Consistent(Apply(s, t, a), b')
  {
    b' := b;
    match a {
      case Start(m) => StepStart(s, b, t, m);
      case Grab(ptr) => b' := StepGrab(s, b, t, ptr);
      case GiveUp => StepGiveUp(s, b, t);
      case Insert => b' := StepInsert(s, b, t);
      case RecordStream(ptr, stream) => StepRecordStream(s, b, t, ptr, stream);
      case Enqueue(stream) => assert Apply(s, t, a).enqueued == s.enqueued[stream := Count(s.enqueued, stream) + 1];
      case Complete(stream) => StepComplete(s, b, t, stream);
    }
  }

  lemma RetiringKeeps(s: State, b: Book, t: nat, a: Action) returns (b': Book)
    requires Consistent(s, b) && Enabled(s, t, a) && Retires(a)
    ensures Consistent(Apply(s, t, a), b')
  {
    match a {
      case Free(ptr) => b' := StepFree(s, b, t, ptr);
      case AcquireOld => b' := StepAcquireOld(s, b, t);
      case AcquireNew(event) => b' := StepAcquireNew(s, b, t, event);
      case RecordEvent => b' := StepRecordEvent(s, b, t);
      case Push => b' := StepPush(s, b, t);
    }
  }

  lemma TakingKeeps(s: State, b: Book, t: nat, a: Action) returns (b': Book)
    requires Consistent(s, b) && Enabled(s, t, a) && Taking(a)
    ensures Consistent(Apply(s, t, a), b')
  {
    match a {
      case Poll(taken) => b' := StepPoll(s, b, t, taken);
      case Force(device, taken) => b' := StepForce(s, b, t, device, taken);
      case Release(id, live, taken) => b' := StepRelease(s, b, t, id, live, taken);
    }
  }

  /** Every step keeps the invariant. */
  lemma StepKeepsConsistent(s: State, b: Book, t: nat, a: Action) returns (b': Book)
    requires Consistent(s, b) && Enabled(s, t, a)
    ensures Consistent(Apply(s, t, a), b')
  {
    b' := b;
    if Allocates(a) {
      b' := AllocatingKeeps(s, b, t, a);
    } else if Retires(a) {
      b' := RetiringKeeps(s, b, t, a);
    } else if Taking(a) {
      b' := TakingKeeps(s, b, t, a);
    } else {
      match a {
        case GiveEvent => b' := StepGiveEvent(s, b, t);
        case Return => b' := StepReturn(s, b, t);
        case Finish => StepFinish(s, b, t);
        case SyncEvent => b' := StepSyncEvent(s, b, t);
        case SyncNext => StepSyncNext(s, b, t);
        case SyncDone => StepSyncDone(s, b, t);
      }
    }
  }
}

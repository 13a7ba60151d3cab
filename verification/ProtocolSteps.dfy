/** Every step of the protocol keeps its invariant, one part at a time. */
module ProtocolSteps {
  import opened Common
  import opened Ledger
  import opened Protocol

  // ---- who holds what --------------------------------------------------------------------------------

  lemma LocalHolds(threads: map<nat, Local>, late: map<nat, Entry>, holder: map<nat, Holder>, s: State, t: nat)
    requires Hold(threads, late, holder).Sound? && threads == s.threads
    ensures HoldsOk(HeldBy(LocalOf(s, t)), t, late, holder) && Shape(LocalOf(s, t))
  {
    assert OpenHold(Seal);
  }

  /** Thread t changes what it holds; nobody else's entries are touched. */
  ghost predicate OthersKept(t: nat, late: map<nat, Entry>, holder: map<nat, Holder>, late': map<nat, Entry>, holder': map<nat, Holder>) {
    && (forall p <- holder :: holder[p].InThread? && holder[p].tid != t ==>
          p in holder' && holder'[p] == holder[p] && (p in late ==> p in late' && late'[p] == late[p]))
    && (forall p <- holder' :: holder'[p].InThread? && holder'[p].tid != t ==> p in holder && holder[p] == holder'[p])
  }

  lemma HoldChange(threads: map<nat, Local>, late: map<nat, Entry>, holder: map<nat, Holder>, t: nat, l: Local,
                   late': map<nat, Entry>, holder': map<nat, Holder>)
    requires Hold(threads, late, holder).Sound? && OthersKept(t, late, holder, late', holder')
    requires HoldsOk(HeldBy(l), t, late', holder') && Shape(l)
    ensures Hold(threads[t := l], late', holder').Sound?
  {
    assert OpenHold(Seal);
    var threads' := threads[t := l];
    forall u | u in threads'
      ensures HoldsOk(HeldBy(threads'[u]), u, late', holder') && Shape(threads'[u])
    {
      if u != t {
        OtherHolds(HeldBy(threads[u]), u, t, late, holder, late', holder');
      }
    }
  }

  lemma OtherHolds(held: seq<Entry>, u: nat, t: nat, late: map<nat, Entry>, holder: map<nat, Holder>,
                   late': map<nat, Entry>, holder': map<nat, Holder>)
    requires HoldsOk(held, u, late, holder) && u != t && OthersKept(t, late, holder, late', holder')
    ensures HoldsOk(held, u, late', holder')
  {
    forall i | 0 <= i < |held|
      ensures HoldsOne(held[i], u, late', holder')
    {
      assert HoldsOne(held[i], u, late, holder);
    }
  }

  /** The pending entries are not touched. */
  lemma PendKept(pending: multiset<Entry>, late: map<nat, Entry>, holder: map<nat, Holder>,
                 late': map<nat, Entry>, holder': map<nat, Holder>)
    requires Pend(pending, late, holder).Sound? && holder'.Keys == late'.Keys
    requires forall p <- late :: p in holder && holder[p] == InPending ==> p in late' && late'[p] == late[p] && holder'[p] == InPending
    requires forall p <- late' :: holder'[p] == InPending ==> p in late && late[p] == late'[p] && p in holder && holder[p] == InPending
    ensures Pend(pending, late', holder').Sound?
  {
    assert OpenPend(Seal);
  }

  lemma HolderKeys(pending: multiset<Entry>, late: map<nat, Entry>, holder: map<nat, Holder>)
    requires Pend(pending, late, holder).Sound?
    ensures holder.Keys == late.Keys
  {
    assert OpenPend(Seal);
  }

  lemma FirstHeld(held: seq<Entry>, t: nat, late: map<nat, Entry>, holder: map<nat, Holder>)
    requires HoldsOk(held, t, late, holder) && held != []
    ensures HoldsOne(held[0], t, late, holder)
  {
  }

  lemma RestHeld(held: seq<Entry>, t: nat, late: map<nat, Entry>, holder: map<nat, Holder>)
    requires HoldsOk(held, t, late, holder) && held != []
    ensures HoldsOk(held[1..], t, late - {held[0].ptr}, holder - {held[0].ptr})
  {
    var p := held[0].ptr;
    forall i | 0 <= i < |held[1..]|
      ensures HoldsOne(held[1..][i], t, late - {p}, holder - {p})
    {
      assert HoldsOne(held[i + 1], t, late, holder);
    }
    forall q | q in holder - {p} && holder[q] == InThread(t)
      ensures q in PtrsOf(held[1..])
    {
      assert q in PtrsOf(held);
      var e :| e in held && e.ptr == q;
      assert e != held[0] && held == [held[0]] + held[1..];
      assert e in held[1..];
    }
  }

  /** One held entry is replaced by a new version of itself. */
  lemma ReplaceHeld(held: seq<Entry>, k: nat, e: Entry, t: nat, late: map<nat, Entry>, holder: map<nat, Holder>)
    requires HoldsOk(held, t, late, holder) && k < |held| && e.ptr == held[k].ptr
    ensures HoldsOk(held[k := e], t, late[e.ptr := e], holder)
  {
    var held' := held[k := e];
    forall i | 0 <= i < |held'|
      ensures HoldsOne(held'[i], t, late[e.ptr := e], holder)
    {
      assert HoldsOne(held[i], t, late, holder);
    }
    forall q | q in holder && holder[q] == InThread(t)
      ensures q in PtrsOf(held')
    {
      assert q in PtrsOf(held);
      var f :| f in held && f.ptr == q;
      var i :| 0 <= i < |held| && held[i] == f;
      assert held'[i].ptr == q && held'[i] in held';
    }
  }

  // ---- who owns what -------------------------------------------------------------------------------------

  lemma OwnTouch(allocated_: map<nat, Owner>, meta: Metas, late: map<nat, Entry>, e: Entry)
    requires Own(allocated_, meta, late).Sound? && e.ptr in late && e.meta == late[e.ptr].meta
    ensures Own(allocated_, meta, late[e.ptr := e]).Sound?
  {
    assert OpenOwn(Seal);
  }

  lemma OwnGrab(allocated_: map<nat, Owner>, meta: Metas, late: map<nat, Entry>, p: nat, m: AllocMeta)
    requires Own(allocated_, meta, late).Sound? && p !in allocated_
    ensures p !in late && p !in meta && Own(allocated_[p := OwnerOf(m)], meta, late[p := Plain(p, m)]).Sound?
  {
    assert OpenOwn(Seal);
  }

  lemma OwnInsert(allocated_: map<nat, Owner>, meta: Metas, late: map<nat, Entry>, p: nat)
    requires Own(allocated_, meta, late).Sound? && p in late
    ensures p !in meta && Own(allocated_, meta[p := late[p].meta], late - {p}).Sound?
  {
    assert OpenOwn(Seal);
  }

  lemma OwnRetire(allocated_: map<nat, Owner>, meta: Metas, late: map<nat, Entry>, p: nat)
    requires Own(allocated_, meta, late).Sound? && p in meta
    ensures p !in late && Own(allocated_, meta - {p}, late[p := Plain(p, meta[p])]).Sound?
  {
    assert OpenOwn(Seal);
  }

  lemma OwnReturn(allocated_: map<nat, Owner>, meta: Metas, late: map<nat, Entry>, p: nat)
    requires Own(allocated_, meta, late).Sound? && p in late
    ensures p in allocated_ && allocated_[p] == OwnerOf(late[p].meta)
    ensures Own(allocated_ - {p}, meta, late - {p}).Sound?
  {
    assert OpenOwn(Seal);
  }

  lemma OwnRetag(allocated_: map<nat, Owner>, meta: Metas, late: map<nat, Entry>, p: nat, m: AllocMeta)
    requires Own(allocated_, meta, late).Sound? && p in meta && OwnerOf(m) == OwnerOf(meta[p])
    ensures Own(allocated_, meta[p := m], late).Sound?
  {
    assert OpenOwn(Seal);
  }

  // ---- events ----------------------------------------------------------------------------------------------

  /** Thread t is not holding a freshly acquired event before or after. */
  lemma EventsGoto(pool: seq<nat>, record: map<nat, Mark>, place: map<nat, EventPlace>, late: map<nat, Entry>,
                   threads: map<nat, Local>, t: nat, l: Local)
    requires Events(pool, record, place, late, threads).Sound?
    requires l.Retiring? ==> l.fresh_event.None?
    requires t in threads && threads[t].Retiring? ==> threads[t].fresh_event.None?
    ensures Events(pool, record, place, late, threads[t := l]).Sound?
  {
    assert OpenEvents(Seal);
    var threads' := threads[t := l];
    forall u, event | InHandOf(threads', u, event)
      ensures event in place && place[event] == InHand(u)
    {
      assert InHandOf(threads, u, event);
    }
    forall event | event in place
      ensures FoundAt(event, place[event], pool, late, threads')
    {
      assert FoundAt(event, place[event], pool, late, threads);
      assert forall u :: InHandOf(threads, u, event) ==> InHandOf(threads', u, event);
    }
  }

  /** Entries without events come and go freely. */
  lemma EventsPlain(pool: seq<nat>, record: map<nat, Mark>, place: map<nat, EventPlace>, late: map<nat, Entry>,
                    threads: map<nat, Local>, late': map<nat, Entry>)
    requires Events(pool, record, place, late, threads).Sound?
    requires forall p <- late :: late[p].events != [] ==> p in late' && late'[p] == late[p]
    requires forall p <- late' :: late'[p].events == [] || (p in late && late[p] == late'[p])
    ensures Events(pool, record, place, late', threads).Sound?
  {
    assert OpenEvents(Seal);
    forall p | p in late'
      ensures EntryEvents(late'[p], p, record, place)
    {
      if p in late {
        assert EntryEvents(late[p], p, record, place);
      }
    }
    forall event | event in place
      ensures FoundAt(event, place[event], pool, late', threads)
    {
      assert FoundAt(event, place[event], pool, late, threads);
    }
  }

  lemma AwaitsStays(e: Entry, p: nat, record: map<nat, Mark>, place: map<nat, EventPlace>, record': map<nat, Mark>,
                    place': map<nat, EventPlace>, event: nat)
    requires EntryEvents(e, p, record, place) && event !in e.events
    requires forall f <- record :: f != event ==> f in record' && record'[f] == record[f]
    requires forall f <- place :: f != event ==> f in place' && place'[f] == place[f]
    ensures EntryEvents(e, p, record', place')
  {
    forall i | 0 <= i < |e.events|
      ensures Awaits(e.events[i], p, e.marks[|e.marks| - |e.events| + i], record', place')
    {
      assert Awaits(e.events[i], p, e.marks[|e.marks| - |e.events| + i], record, place);
    }
  }

  /** An event that is not with an entry is in none. */
  lemma NotInEntry(e: Entry, p: nat, record: map<nat, Mark>, place: map<nat, EventPlace>, event: nat)
    requires EntryEvents(e, p, record, place) && (event in place ==> place[event] != With(p))
    ensures event !in e.events
  {
    forall i | 0 <= i < |e.events|
      ensures e.events[i] != event
    {
      assert Awaits(e.events[i], p, e.marks[|e.marks| - |e.events| + i], record, place);
    }
  }

  /** EventPool::acquire takes the last event of the pool. */
  lemma EventsAcquireOld(pool: seq<nat>, record: map<nat, Mark>, place: map<nat, EventPlace>, late: map<nat, Entry>,
                         threads: map<nat, Local>, t: nat, e: Entry, todo: seq<int>)
    requires Events(pool, record, place, late, threads).Sound? && pool != []
    requires t in threads && threads[t] == Retiring(e, todo, None)
    ensures var event := pool[|pool| - 1];
            Events(pool[..|pool| - 1], record, place[event := InHand(t)], late, threads[t := Retiring(e, todo, Some(event))]).Sound?
  {
    assert OpenEvents(Seal);
    var n := |pool| - 1;
    var event := pool[n];
    var place', threads' := place[event := InHand(t)], threads[t := Retiring(e, todo, Some(event))];
    forall p | p in late
      ensures EntryEvents(late[p], p, record, place')
    {
      NotInEntry(late[p], p, record, place, event);
      AwaitsStays(late[p], p, record, place, record, place', event);
    }
    forall f | f in place'
      ensures FoundAt(f, place'[f], pool[..n], late, threads')
    {
      if f != event {
        assert FoundAt(f, place[f], pool, late, threads);
        assert pool == pool[..n] + [event];
      }
    }
    forall u, f | InHandOf(threads', u, f)
      ensures f in place' && place'[f] == InHand(u)
    {
      assert u != t ==> InHandOf(threads, u, f);
    }
  }

  /** EventPool::acquire creates an event when the pool is empty. */
  lemma EventsAcquireNew(pool: seq<nat>, record: map<nat, Mark>, place: map<nat, EventPlace>, late: map<nat, Entry>,
                         threads: map<nat, Local>, t: nat, e: Entry, todo: seq<int>, event: nat, m: Mark)
    requires Events(pool, record, place, late, threads).Sound? && event !in record
    requires t in threads && threads[t] == Retiring(e, todo, None)
    ensures Events(pool, record[event := m], place[event := InHand(t)], late, threads[t := Retiring(e, todo, Some(event))]).Sound?
  {
    assert OpenEvents(Seal);
    var place', threads' := place[event := InHand(t)], threads[t := Retiring(e, todo, Some(event))];
    forall p | p in late
      ensures EntryEvents(late[p], p, record[event := m], place')
    {
      NotInEntry(late[p], p, record, place, event);
      AwaitsStays(late[p], p, record, place, record[event := m], place', event);
    }
    forall f | f in place'
      ensures FoundAt(f, place'[f], pool, late, threads')
    {
      if f != event {
        assert FoundAt(f, place[f], pool, late, threads);
      }
    }
    forall u, f | InHandOf(threads', u, f)
      ensures f in place' && place'[f] == InHand(u)
    {
      assert u != t ==> InHandOf(threads, u, f);
    }
  }

  /** cudaEventRecord: the event in hand joins the entry being retired. */
  lemma EventsRecord(pool: seq<nat>, record: map<nat, Mark>, place: map<nat, EventPlace>, late: map<nat, Entry>,
                     threads: map<nat, Local>, t: nat, e: Entry, todo: seq<int>, event: nat, m: Mark, e': Entry, l: Local)
    requires Events(pool, record, place, late, threads).Sound?
    requires t in threads && threads[t] == Retiring(e, todo, Some(event)) && e.ptr in late && late[e.ptr] == e
    requires |e.events| == |e.marks| && e' == e.(events := e.events + [event], marks := e.marks + [m])
    requires l.Retiring? && l.fresh_event.None?
    ensures Events(pool, record[event := m], place[event := With(e.ptr)], late[e.ptr := e'], threads[t := l]).Sound?
  {
    assert OpenEvents(Seal);
    var p := e.ptr;
    var place', threads' := place[event := With(p)], threads[t := l];
    assert InHandOf(threads, t, event);
    forall q | q in late
      ensures EntryEvents(late[p := e'][q], q, record[event := m], place')
    {
      RecordInEntry(late[q], q, record, place, event, m, e, e');
    }
    forall f | f in place'
      ensures FoundAt(f, place'[f], pool, late[p := e'], threads')
    {
      if f != event {
        assert FoundAt(f, place[f], pool, late, threads);
      }
      FoundAfterRecord(f, place, pool, late, threads, t, l, event, e, e');
    }
    forall u, f | InHandOf(threads', u, f)
      ensures f in place' && place'[f] == InHand(u)
    {
      assert InHandOf(threads, u, f);
    }
  }

  lemma RecordInEntry(d: Entry, q: nat, record: map<nat, Mark>, place: map<nat, EventPlace>, event: nat, m: Mark, e: Entry, e': Entry)
    requires EntryEvents(d, q, record, place) && event in place && place[event].InHand?
    requires |e.events| == |e.marks| && e' == e.(events := e.events + [event], marks := e.marks + [m]) && (q == e.ptr ==> d == e)
    ensures EntryEvents(if q == e.ptr then e' else d, q, record[event := m], place[event := With(e.ptr)])
  {
    NotInEntry(d, q, record, place, event);
    AwaitsStays(d, q, record, place, record[event := m], place[event := With(e.ptr)], event);
    if q == e.ptr {
      RecordedEntry(e, q, record[event := m], place[event := With(e.ptr)], event, m, e');
    }
  }

  lemma FoundAfterRecord(f: nat, place: map<nat, EventPlace>, pool: seq<nat>, late: map<nat, Entry>, threads: map<nat, Local>,
                         t: nat, l: Local, event: nat, e: Entry, e': Entry)
    requires f == event || (f in place && FoundAt(f, place[f], pool, late, threads))
    requires t in threads && threads[t].Retiring? && threads[t].fresh_event == Some(event) && e.ptr in late && late[e.ptr] == e
    requires e'.events == e.events + [event] && e'.ptr == e.ptr
    ensures FoundAt(f, place[event := With(e.ptr)][f], pool, late[e.ptr := e'], threads[t := l])
  {
    if f == event {
      assert e'.events[|e.events|] == event;
    } else if place[f] == With(e.ptr) {
      var i :| 0 <= i < |e.events| && e.events[i] == f;
      assert e'.events[i] == f;
    }
  }

  lemma RecordedEntry(e: Entry, p: nat, record: map<nat, Mark>, place: map<nat, EventPlace>, event: nat, m: Mark, e': Entry)
    requires EntryEvents(e, p, record, place) && |e.events| == |e.marks| && event !in e.events
    requires e' == e.(events := e.events + [event], marks := e.marks + [m]) && Awaits(event, p, m, record, place)
    ensures EntryEvents(e', p, record, place)
  {
    forall i | 0 <= i < |e'.events|
      ensures Awaits(e'.events[i], p, e'.marks[|e'.marks| - |e'.events| + i], record, place)
    {
      if i < |e.events| {
        assert Awaits(e.events[i], p, e.marks[|e.marks| - |e.events| + i], record, place);
      }
    }
  }

  /** EventPool::release: the first event of an entry goes back to the pool. */
  lemma EventsGive(pool: seq<nat>, record: map<nat, Mark>, place: map<nat, EventPlace>, late: map<nat, Entry>,
                   threads: map<nat, Local>, e: Entry, pool': seq<nat>, place': map<nat, EventPlace>, late': map<nat, Entry>)
    requires Events(pool, record, place, late, threads).Sound? && e.ptr in late && late[e.ptr] == e && e.events != []
    requires pool' == pool + [e.events[0]] && place' == place[e.events[0] := InPool] && late' == late[e.ptr := DropEvent(e)]
    ensures Events(pool', record, place', late', threads).Sound?
  {
    assert OpenEvents(Seal);
    assert EntryEvents(e, e.ptr, record, place);
    assert Awaits(e.events[0], e.ptr, e.marks[|e.marks| - |e.events|], record, place);
    GiveInAll(late, record, place, e, place', late');
    FoundAfterAll(place, pool, late, threads, e, pool', place', late');
  }

  lemma GiveInAll(late: map<nat, Entry>, record: map<nat, Mark>, place: map<nat, EventPlace>, e: Entry,
                  place': map<nat, EventPlace>, late': map<nat, Entry>)
    requires e.ptr in late && late[e.ptr] == e && e.events != [] && e.events[0] in place && place[e.events[0]] == With(e.ptr)
    requires place' == place[e.events[0] := InPool] && late' == late[e.ptr := DropEvent(e)]
    requires AllEntryEvents(late, record, place)
    ensures AllEntryEvents(late', record, place')
  {
    forall q | q in late'
      ensures EntryEvents(late'[q], q, record, place')
    {
      GiveInEntry(late[q], q, record, place, e.events[0], e);
    }
  }

  lemma FoundAfterAll(place: map<nat, EventPlace>, pool: seq<nat>, late: map<nat, Entry>, threads: map<nat, Local>, e: Entry,
                      pool': seq<nat>, place': map<nat, EventPlace>, late': map<nat, Entry>)
    requires e.events != [] && e.ptr in late && late[e.ptr] == e && AllFound(place, pool, late, threads)
    requires pool' == pool + [e.events[0]] && place' == place[e.events[0] := InPool] && late' == late[e.ptr := DropEvent(e)]
    ensures AllFound(place', pool', late', threads)
  {
    forall f | f in place'
      ensures FoundAt(f, place'[f], pool', late', threads)
    {
      FoundAfterGive(f, place, pool, late, threads, e);
    }
  }

  lemma GiveInEntry(d: Entry, q: nat, record: map<nat, Mark>, place: map<nat, EventPlace>, event: nat, e: Entry)
    requires EntryEvents(d, q, record, place) && e.events != [] && event == e.events[0]
    requires event in place && place[event] == With(e.ptr) && (q == e.ptr ==> d == e)
    ensures EntryEvents(if q == e.ptr then DropEvent(e) else d, q, record, place[event := InPool])
  {
    if q == e.ptr {
      DroppedEntry(e, q, record, place, place[event := InPool]);
    } else {
      NotInEntry(d, q, record, place, event);
      AwaitsStays(d, q, record, place, record, place[event := InPool], event);
    }
  }

  lemma FoundAfterGive(f: nat, place: map<nat, EventPlace>, pool: seq<nat>, late: map<nat, Entry>, threads: map<nat, Local>, e: Entry)
    requires e.events != [] && e.ptr in late && late[e.ptr] == e
    requires f == e.events[0] || (f in place && FoundAt(f, place[f], pool, late, threads))
    ensures FoundAt(f, place[e.events[0] := InPool][f], pool + [e.events[0]], late[e.ptr := DropEvent(e)], threads)
  {
    if f == e.events[0] {
      assert (pool + [e.events[0]])[|pool|] == f;
    } else if place[f] == With(e.ptr) {
      var i :| 0 <= i < |e.events| && e.events[i] == f;
      assert DropEvent(e).events[i - 1] == f;
    } else if place[f] == InPool {
      var i :| 0 <= i < |pool| && pool[i] == f;
      assert (pool + [e.events[0]])[i] == f;
    }
  }

  lemma DroppedEntry(e: Entry, p: nat, record: map<nat, Mark>, place: map<nat, EventPlace>, place': map<nat, EventPlace>)
    requires EntryEvents(e, p, record, place) && e.events != [] && place' == place[e.events[0] := InPool]
    ensures EntryEvents(DropEvent(e), p, record, place')
  {
    var d := DropEvent(e);
    forall i | 0 <= i < |d.events|
      ensures Awaits(d.events[i], p, d.marks[|d.marks| - |d.events| + i], record, place')
    {
      assert Awaits(e.events[i + 1], p, e.marks[|e.marks| - |e.events| + i + 1], record, place);
    }
  }

  // ---- what has completed --------------------------------------------------------------------------------------

  lemma WaitsGoto(late: map<nat, Entry>, threads: map<nat, Local>, completed: map<int, nat>, t: nat, l: Local)
    requires Waits(late, threads, completed).Sound?
    requires l.Draining? && l.checked ==> forall e <- l.work :: AllReached(e, completed)
    ensures Waits(late, threads[t := l], completed).Sound?
  {
    assert OpenWaits(Seal);
  }

  lemma WaitsChange(late: map<nat, Entry>, threads: map<nat, Local>, completed: map<int, nat>, late': map<nat, Entry>)
    requires Waits(late, threads, completed).Sound?
    requires forall p <- late' :: WaitedFor(late'[p], completed) || (p in late && late[p] == late'[p])
    ensures Waits(late', threads, completed).Sound?
  {
    assert OpenWaits(Seal);
  }

  /** Completion only grows. */
  lemma WaitsComplete(late: map<nat, Entry>, threads: map<nat, Local>, completed: map<int, nat>, stream: int)
    requires Waits(late, threads, completed).Sound?
    ensures Waits(late, threads, completed[stream := Count(completed, stream) + 1]).Sound?
  {
    assert OpenWaits(Seal);
    var completed' := completed[stream := Count(completed, stream) + 1];
    forall m: Mark | Reached(completed, m)
      ensures Reached(completed', m)
    {
    }
    forall p | p in late
      ensures WaitedFor(late[p], completed')
    {
      assert WaitedFor(late[p], completed);
    }
    forall t | t in threads && threads[t].Draining? && threads[t].checked
      ensures forall e <- threads[t].work :: AllReached(e, completed')
    {
      forall e | e in threads[t].work
        ensures AllReached(e, completed')
      {
        assert AllReached(e, completed);
      }
    }
  }

  // ---- the pending list ---------------------------------------------------------------------------------------------

  lemma PendPush(pending: multiset<Entry>, late: map<nat, Entry>, holder: map<nat, Holder>, e: Entry)
    requires Pend(pending, late, holder).Sound? && e.ptr in late && late[e.ptr] == e
    requires e.ptr in holder && holder[e.ptr] != InPending
    requires Deferred(e)
    ensures Pend(pending + multiset{e}, late, holder[e.ptr := InPending]).Sound?
  {
    assert OpenPend(Seal);
    assert e !in pending;
  }

  /** The entries taken go from the pending list to thread t. */
  ghost function Reassign(holder: map<nat, Holder>, ptrs: set<nat>, t: nat): map<nat, Holder> {
    map p | p in holder :: if p in ptrs then InThread(t) else holder[p]
  }

  lemma TakenArePending(pending: multiset<Entry>, late: map<nat, Entry>, holder: map<nat, Holder>, taken: seq<Entry>, i: nat)
    requires Pend(pending, late, holder).Sound? && multiset(taken) <= pending && i < |taken|
    ensures var e := taken[i];
            && e.ptr in late && late[e.ptr] == e && e.ptr in holder && holder[e.ptr] == InPending
            && Deferred(e) && e in pending
  {
    assert OpenPend(Seal);
    assert taken[i] in multiset(taken);
  }

  lemma TakenDistinct(pending: multiset<Entry>, late: map<nat, Entry>, holder: map<nat, Holder>, taken: seq<Entry>, i: nat, j: nat)
    requires Pend(pending, late, holder).Sound? && multiset(taken) <= pending && i < j < |taken|
    ensures taken[i].ptr != taken[j].ptr
  {
    TakenArePending(pending, late, holder, taken, i);
    TakenArePending(pending, late, holder, taken, j);
    TwiceCounted(taken, i, j);
    assert OpenPend(Seal);
    assert pending[taken[i]] == 1;
  }

  lemma TwiceCounted<T>(s: seq<T>, i: nat, j: nat)
    requires i < j < |s|
    ensures s[i] == s[j] ==> multiset(s)[s[i]] >= 2
  {
    assert s == s[..i] + [s[i]] + s[i + 1..j] + [s[j]] + s[j + 1..];
  }

  lemma TakenPtr(pending: multiset<Entry>, late: map<nat, Entry>, holder: map<nat, Holder>, taken: seq<Entry>, p: nat)
    requires Pend(pending, late, holder).Sound? && multiset(taken) <= pending && p in PtrsOf(taken)
    ensures p in late && late[p] in taken && late[p] in multiset(taken)
  {
    var f :| f in taken && f.ptr == p;
    var i :| 0 <= i < |taken| && taken[i] == f;
    TakenArePending(pending, late, holder, taken, i);
  }

  lemma PendTake(pending: multiset<Entry>, late: map<nat, Entry>, holder: map<nat, Holder>, taken: seq<Entry>, t: nat)
    requires Pend(pending, late, holder).Sound? && multiset(taken) <= pending && forall p <- late :: late[p].ptr == p
    ensures Pend(pending - multiset(taken), late, Reassign(holder, PtrsOf(taken), t)).Sound?
  {
    var pending', holder' := pending - multiset(taken), Reassign(holder, PtrsOf(taken), t);
    forall e | e in pending
      ensures e in multiset(taken) <==> e.ptr in PtrsOf(taken)
    {
      StillPending(pending, late, holder, e);
      if e.ptr in PtrsOf(taken) {
        TakenPtr(pending, late, holder, taken, e.ptr);
      }
    }
    PendingOnce(pending, late, holder);
    LeftPending(pending, late, holder, PtrsOf(taken), t, pending', holder');
  }

  lemma PendingOnce(pending: multiset<Entry>, late: map<nat, Entry>, holder: map<nat, Holder>)
    requires Pend(pending, late, holder).Sound?
    ensures forall e :: e in pending ==> pending[e] == 1
  {
    assert OpenPend(Seal);
  }

  lemma LeftPending(pending: multiset<Entry>, late: map<nat, Entry>, holder: map<nat, Holder>, ptrs: set<nat>, t: nat,
                    pending': multiset<Entry>, holder': map<nat, Holder>)
    requires Pend(pending, late, holder).Sound? && forall p <- late :: late[p].ptr == p
    requires holder'.Keys == holder.Keys
    requires forall p <- holder :: holder'[p] == if p in ptrs then InThread(t) else holder[p]
    requires forall e :: e in pending' ==> e in pending && pending'[e] == 1 && e.ptr !in ptrs
    requires forall e :: e in pending && e.ptr !in ptrs ==> e in pending'
    ensures Pend(pending', late, holder').Sound?
  {
    forall e | e in pending'
      ensures pending'[e] == 1 && e.ptr in late && late[e.ptr] == e && e.ptr in holder' && holder'[e.ptr] == InPending
    {
      StillPending(pending, late, holder, e);
    }
    forall p | p in late && p in holder' && holder'[p] == InPending
      ensures late[p] in pending' && Deferred(late[p])
    {
      StillHeld(pending, late, holder, p);
    }
    HolderKeys(pending, late, holder);
  }

  lemma StillPending(pending: multiset<Entry>, late: map<nat, Entry>, holder: map<nat, Holder>, e: Entry)
    requires Pend(pending, late, holder).Sound? && e in pending
    ensures pending[e] == 1 && e.ptr in late && late[e.ptr] == e && e.ptr in holder && holder[e.ptr] == InPending
  {
    assert OpenPend(Seal);
  }

  lemma StillHeld(pending: multiset<Entry>, late: map<nat, Entry>, holder: map<nat, Holder>, p: nat)
    requires Pend(pending, late, holder).Sound? && p in late && p in holder && holder[p] == InPending
    ensures late[p] in pending && pending[late[p]] == 1 && Deferred(late[p])
  {
    assert OpenPend(Seal);
  }

  /** A thread that held nothing now holds what it took. */
  lemma TakenHeld(pending: multiset<Entry>, late: map<nat, Entry>, holder: map<nat, Holder>, taken: seq<Entry>, t: nat)
    requires Pend(pending, late, holder).Sound? && multiset(taken) <= pending
    requires forall p <- holder :: holder[p] != InThread(t)
    ensures HoldsOk(taken, t, late, Reassign(holder, PtrsOf(taken), t))
  {
    var holder' := Reassign(holder, PtrsOf(taken), t);
    forall i | 0 <= i < |taken|
      ensures HoldsOne(taken[i], t, late, holder')
    {
      TakenArePending(pending, late, holder, taken, i);
      assert taken[i] in taken;
    }
    forall i, j | 0 <= i < j < |taken|
      ensures taken[i].ptr != taken[j].ptr
    {
      TakenDistinct(pending, late, holder, taken, i, j);
    }
  }
}

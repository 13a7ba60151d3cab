/** Where freed allocations come from: every entry on its way back to a sub-allocator is traced to the
    step of the run that took it off meta_ (csrc/vmm_allocator.cc:284-412 and 675-723). */
module ProtocolHistory {
  import opened Common
  import opened Ledger
  import opened Protocol
  import opened ProtocolSteps
  import opened ProtocolSafety
  import opened ProtocolTheorems

  ghost predicate RetiringAt(s: State, t: nat, e: Entry) {
    LocalOf(s, t).Retiring? && LocalOf(s, t).entry == e
  }

  /** The entry is pending, or having its events recorded. */
  ghost predicate Deferring(s: State, e: Entry) {
    e in s.pending || exists t :: RetiringAt(s, t, e)
  }

  ghost predicate LeavingAt(s: State, t: nat, e: Entry) {
    (LocalOf(s, t).Draining? || LocalOf(s, t).Syncing?) && e in HeldBy(LocalOf(s, t))
  }

  /** A thread is about to hand the entry back to its sub-allocator. */
  ghost predicate Leaving(s: State, e: Entry) {
    exists t :: LeavingAt(s, t, e)
  }

  // ---- one step --------------------------------------------------------------------------------------

  ghost predicate FreedBy(s: State, p: nat, s': State) {
    exists t :: Next(s, t, Free(p), s')
  }

  ghost predicate ReleasesLive(s: State, t: nat, a: Action, s': State, p: nat) {
    a.Release? && Next(s, t, a, s') && p in PtrsOf(a.live)
  }

  /** releasePool takes the pointer off meta_. */
  ghost predicate ReleasedBy(s: State, p: nat, s': State) {
    exists t, a :: ReleasesLive(s, t, a, s', p)
  }

  lemma FreeKeepsIds(s: State, t: nat, p: nat, s': State)
    requires Next(s, t, Free(p), s')
    ensures s'.index.Keys == s.index.Keys
  {
  }

  lemma ReleaseDropsId(s: State, t: nat, a: Action, s': State)
    requires a.Release? && Next(s, t, a, s')
    ensures s'.index.Keys != s.index.Keys
  {
    assert a.id in s.index && a.id !in s'.index;
  }

  lemma FreedOrReleased(s: State, p: nat, s': State)
    requires FreedBy(s, p, s')
    ensures !ReleasedBy(s, p, s')
  {
    var t :| Next(s, t, Free(p), s');
    FreeKeepsIds(s, t, p, s');
    if ReleasedBy(s, p, s') {
      var u, a :| ReleasesLive(s, u, a, s', p);
      ReleaseDropsId(s, u, a, s');
    }
  }

  /** The entry is freed for good: by free_impl without recorded streams, or by releasePool. */
  ghost predicate GoneBy(s: State, e: Entry, s': State) {
    (FreedBy(s, e.ptr, s') && e.meta.recorded_streams == []) || ReleasedBy(s, e.ptr, s')
  }

  ghost predicate JustOff(s: State, e: Entry) {
    e.ptr in s.meta && e == Plain(e.ptr, s.meta[e.ptr])
  }

  /** e is before with one more event, recorded behind all work enqueued so far. */
  ghost predicate Marked(s: State, before: Entry, e: Entry) {
    && e.ptr == before.ptr && e.meta == before.meta
    && exists stream :: e.marks == before.marks + [Mark(stream, Count(s.enqueued, stream))]
  }

  lemma AllocatingFrame(s: State, t: nat, a: Action, s': State)
    requires Next(s, t, a, s') && Allocates(a)
    ensures s'.pending == s.pending
    ensures forall u :: u != t ==> LocalOf(s', u) == LocalOf(s, u)
    ensures forall stream :: Count(s.enqueued, stream) <= Count(s'.enqueued, stream)
  {
  }

  lemma RetiringFrame(s: State, t: nat, a: Action, s': State)
    requires Next(s, t, a, s') && Retires(a)
    ensures s'.enqueued == s.enqueued
    ensures forall u :: u != t ==> LocalOf(s', u) == LocalOf(s, u)
    ensures forall e :: e in s'.pending ==> e in s.pending || RetiringAt(s, t, e)
  {
  }

  lemma TakingFrame(s: State, t: nat, a: Action, s': State)
    requires Next(s, t, a, s') && Taking(a)
    ensures s'.enqueued == s.enqueued && s'.pending == s.pending - multiset(a.taken)
    ensures forall u :: u != t ==> LocalOf(s', u) == LocalOf(s, u)
  {
    if a.Release? {
    } else if a.Poll? {
    }
  }

  lemma GivingFrame(s: State, t: nat, a: Action, s': State)
    requires Next(s, t, a, s') && Giving(a)
    ensures s'.enqueued == s.enqueued && s'.pending == s.pending
    ensures forall u :: u != t ==> LocalOf(s', u) == LocalOf(s, u)
  {
  }

  lemma MovingFrame(s: State, t: nat, a: Action, s': State)
    requires Next(s, t, a, s') && Moves(a)
    ensures s'.enqueued == s.enqueued && s'.pending == s.pending
    ensures forall u :: u != t ==> LocalOf(s', u) == LocalOf(s, u)
  {
  }

  /** No step touches another thread's entries, adds another entry to the pending list than the one
      thread t was deferring, or takes enqueued work back. */
  lemma Frame(s: State, t: nat, a: Action, s': State)
    requires Next(s, t, a, s')
    ensures forall u :: u != t ==> LocalOf(s', u) == LocalOf(s, u)
    ensures forall e :: e in s'.pending ==> e in s.pending || RetiringAt(s, t, e)
    ensures forall stream :: Count(s.enqueued, stream) <= Count(s'.enqueued, stream)
  {
    if Allocates(a) {
      AllocatingFrame(s, t, a, s');
    } else if Retires(a) {
      RetiringFrame(s, t, a, s');
    } else if Taking(a) {
      TakingFrame(s, t, a, s');
    } else if Giving(a) {
      GivingFrame(s, t, a, s');
    } else {
      MovingFrame(s, t, a, s');
    }
  }

  lemma RetiringBefore(s: State, t: nat, a: Action, s': State, e: Entry)
    requires Next(s, t, a, s') && RetiringAt(s', t, e) && !a.RecordEvent?
    ensures RetiringAt(s, t, e) || (a == Free(e.ptr) && JustOff(s, e) && e.meta.recorded_streams != [])
  {
    if a.Free? {
    } else if a.AcquireOld? || a.AcquireNew? {
    } else {
      assert LocalOf(s', t) == LocalOf(s, t);
    }
  }

  lemma RecordMarks(s: State, t: nat, s': State, e: Entry)
    requires Next(s, t, RecordEvent, s') && RetiringAt(s', t, e)
    ensures exists before :: RetiringAt(s, t, before) && Marked(s, before, e)
  {
    var l := LocalOf(s, t);
    assert e.marks == l.entry.marks + [Mark(l.todo[0], Count(s.enqueued, l.todo[0]))];
    assert RetiringAt(s, t, l.entry) && Marked(s, l.entry, e);
  }

  ghost predicate MarkedFrom(s: State, e: Entry) {
    exists before :: Deferring(s, before) && Marked(s, before, e)
  }

  lemma DeferringBefore(s: State, t: nat, a: Action, s': State, e: Entry)
    requires Next(s, t, a, s') && Deferring(s', e)
    ensures Deferring(s, e) || MarkedFrom(s, e) || (FreedBy(s, e.ptr, s') && JustOff(s, e) && e.meta.recorded_streams != [])
  {
    if e in s'.pending {
      Frame(s, t, a, s');
    } else {
      var u :| RetiringAt(s', u, e);
      if u != t {
        Frame(s, t, a, s');
        assert RetiringAt(s, u, e);
      } else if a.RecordEvent? {
        RecordMarks(s, t, s', e);
      } else {
        RetiringBefore(s, t, a, s', e);
        assert a == Free(e.ptr) ==> Next(s, t, Free(e.ptr), s');
      }
    }
  }

  ghost predicate Dropped(before: Entry, e: Entry) {
    e.ptr == before.ptr && e.meta == before.meta && e.marks == before.marks
  }

  lemma TakenBefore(s: State, t: nat, a: Action, s': State, e: Entry)
    requires Next(s, t, a, s') && LeavingAt(s', t, e) && Taking(a)
    ensures e in s.pending || (ReleasesLive(s, t, a, s', e.ptr) && JustOff(s, e))
  {
    assert e in a.taken ==> e in multiset(a.taken);
  }

  lemma GivenBefore(s: State, t: nat, a: Action, s': State, e: Entry)
    requires Next(s, t, a, s') && LeavingAt(s', t, e) && Giving(a)
    ensures exists before :: LeavingAt(s, t, before) && Dropped(before, e)
  {
    var l := LocalOf(s, t);
    var head := if a.GiveEvent? then l.work[0] else l.waiting[0];
    assert LeavingAt(s, t, head) && Dropped(head, DropEvent(head));
    if e != DropEvent(head) {
      assert LeavingAt(s, t, e) && Dropped(e, e);
    }
  }

  lemma HeldBefore(s: State, t: nat, a: Action, s': State, e: Entry)
    requires Next(s, t, a, s') && LeavingAt(s', t, e) && !Taking(a) && !Giving(a)
    ensures LeavingAt(s, t, e) || (a == Free(e.ptr) && JustOff(s, e) && e.meta.recorded_streams == [])
  {
  }

  lemma GoneHere(s: State, t: nat, a: Action, s': State, e: Entry)
    requires Next(s, t, a, s')
    requires (a == Free(e.ptr) && e.meta.recorded_streams == []) || ReleasesLive(s, t, a, s', e.ptr)
    ensures GoneBy(s, e, s')
  {
    if a == Free(e.ptr) {
      assert Next(s, t, Free(e.ptr), s');
    }
  }

  ghost predicate DroppedFrom(s: State, e: Entry) {
    exists before :: Leaving(s, before) && Dropped(before, e)
  }

  lemma LeavingBefore(s: State, t: nat, a: Action, s': State, e: Entry)
    requires Next(s, t, a, s') && Leaving(s', e)
    ensures DroppedFrom(s, e) || e in s.pending || (GoneBy(s, e, s') && JustOff(s, e))
  {
    var u :| LeavingAt(s', u, e);
    assert Dropped(e, e);
    if u != t {
      Frame(s, t, a, s');
      assert LeavingAt(s, u, e);
    } else if Taking(a) {
      TakenBefore(s, t, a, s', e);
      if e !in s.pending {
        GoneHere(s, t, a, s', e);
      }
    } else if Giving(a) {
      GivenBefore(s, t, a, s', e);
    } else {
      HeldBefore(s, t, a, s', e);
      if !LeavingAt(s, t, e) {
        GoneHere(s, t, a, s', e);
      }
    }
  }

  // ---- whole runs --------------------------------------------------------------------------------------

  /** Step k of the run takes the entry's pointer off meta_, where its record was; from then on the
      pointer stays off, and with its sub-allocator. */
  ghost predicate OffSince(run: seq<State>, k: nat, e: Entry) {
    && k + 1 < |run| && e.ptr in run[k].meta && run[k].meta[e.ptr] == e.meta
    && forall j :: k < j < |run| ==> OffAt(run[j], e)
  }

  ghost predicate OffAt(s: State, e: Entry) {
    e.ptr !in s.meta && e.ptr in s.allocated_ && s.allocated_[e.ptr] == Owner(e.meta.device, e.meta.is_large)
  }

  /** Each event was recorded behind at least that much work. */
  ghost predicate MarksBehind(marks: seq<Mark>, enqueued: map<int, nat>) {
    forall i :: 0 <= i < |marks| ==> marks[i].pos >= Count(enqueued, marks[i].stream)
  }

  /** Step k is a deferred free of the entry, and its events were recorded behind all work enqueued
      by then. */
  ghost predicate DeferredAt(run: seq<State>, k: nat, e: Entry) {
    && OffSince(run, k, e) && FreedBy(run[k], e.ptr, run[k + 1]) && e.meta.recorded_streams != []
    && MarksBehind(e.marks, run[k].enqueued)
  }

  ghost predicate IsPending(s: State, p: nat) {
    exists e :: e in s.pending && e.ptr == p
  }

  /** After step k the pointer was pending at some time. */
  ghost predicate WasPending(run: seq<State>, k: nat, p: nat) {
    exists j :: k < j < |run| && IsPending(run[j], p)
  }

  /** Step k frees the entry for good. */
  ghost predicate PlainAt(run: seq<State>, k: nat, e: Entry) {
    OffSince(run, k, e) && e.marks == [] && !WasPending(run, k, e.ptr) && GoneBy(run[k], e, run[k + 1])
  }

  /** Step k is where an entry that is now leaving came from. */
  ghost predicate LeftAt(run: seq<State>, k: nat, e: Entry) {
    || PlainAt(run, k, e)
    || (DeferredAt(run, k, e) && Streams(e.marks) == Needed(e.meta) && WasPending(run, k, e.ptr))
  }

  /** Every entry on its way in the last state s has come from somewhere. */
  ghost predicate TracedTo(run: seq<State>, s: State) {
    && (forall e :: Deferring(s, e) ==> exists k :: DeferredAt(run, k, e))
    && (forall e :: Leaving(s, e) ==> exists k :: LeftAt(run, k, e))
  }

  ghost predicate Traced(run: seq<State>)
    requires run != []
  {
    TracedTo(run, run[|run| - 1])
  }

  lemma OriginOfDeferring(run: seq<State>, s: State, e: Entry) returns (k: nat)
    requires TracedTo(run, s) && Deferring(s, e)
    ensures DeferredAt(run, k, e)
  {
    k :| DeferredAt(run, k, e);
  }

  lemma OriginOfLeaving(run: seq<State>, s: State, e: Entry) returns (k: nat)
    requires TracedTo(run, s) && Leaving(s, e)
    ensures LeftAt(run, k, e)
  {
    k :| LeftAt(run, k, e);
  }

  lemma DeferringIsOff(s: State, b: Book, e: Entry)
    requires Consistent(s, b) && Deferring(s, e)
    ensures OffAt(s, e)
    ensures e in s.pending ==> Deferred(e)
  {
    if e in s.pending {
      PendingSpot(s, b, e);
      SpotIsOwned(s, b, e.ptr, Pending(e));
    } else {
      var t :| RetiringAt(s, t, e);
      assert HeldBy(LocalOf(s, t))[0] == e;
      ThreadSpot(s, b, t, 0);
      SpotIsOwned(s, b, e.ptr, WithThread(t, 0));
    }
    assert OpenOwn(Seal);
  }

  lemma LeavingIsOff(s: State, b: Book, e: Entry)
    requires Consistent(s, b) && Leaving(s, e)
    ensures OffAt(s, e) && !IsPending(s, e.ptr)
  {
    var t :| LeavingAt(s, t, e);
    var i :| 0 <= i < |HeldBy(LocalOf(s, t))| && HeldBy(LocalOf(s, t))[i] == e;
    ThreadSpot(s, b, t, i);
    SpotIsOwned(s, b, e.ptr, WithThread(t, i));
    forall f | f in s.pending
      ensures f.ptr != e.ptr
    {
      PendingSpot(s, b, f);
    }
    assert OpenOwn(Seal);
  }

  lemma {:induction false} EnqueuedGrows(run: seq<State>, i: nat, j: nat, stream: int)
    requires IsRun(run) && i <= j < |run|
    ensures Count(run[i].enqueued, stream) <= Count(run[j].enqueued, stream)
  {
    if i < j {
      EnqueuedGrows(run, i, j - 1, stream);
      assert Step(run[j - 1], run[j]);
      var t, a :| Next(run[j - 1], t, a, run[j]);
      Frame(run[j - 1], t, a, run[j]);
    }
  }

  lemma OffLonger(run: seq<State>, k: nat, f: Entry, e: Entry)
    requires |run| >= 2 && OffSince(run[..|run| - 1], k, f) && e.ptr == f.ptr && e.meta == f.meta && OffAt(run[|run| - 1], e)
    ensures OffSince(run, k, e)
  {
    var before := run[..|run| - 1];
    forall j | k < j < |run|
      ensures OffAt(run[j], e)
    {
      if j < |before| {
        assert OffAt(before[j], f);
      }
    }
  }

  lemma DeferredLonger(run: seq<State>, k: nat, f: Entry, e: Entry)
    requires |run| >= 2 && DeferredAt(run[..|run| - 1], k, f) && e.ptr == f.ptr && e.meta == f.meta && OffAt(run[|run| - 1], e)
    requires MarksBehind(e.marks, run[k].enqueued)
    ensures DeferredAt(run, k, e)
  {
    OffLonger(run, k, f, e);
  }

  lemma PendingLonger(run: seq<State>, k: nat, p: nat)
    requires |run| >= 2 && WasPending(run[..|run| - 1], k, p)
    ensures WasPending(run, k, p)
  {
    var j :| k < j < |run| - 1 && IsPending(run[..|run| - 1][j], p);
    assert IsPending(run[j], p);
  }

  lemma LeftLonger(run: seq<State>, k: nat, f: Entry, e: Entry)
    requires |run| >= 2 && LeftAt(run[..|run| - 1], k, f) && Dropped(f, e)
    requires OffAt(run[|run| - 1], e) && !IsPending(run[|run| - 1], e.ptr)
    ensures LeftAt(run, k, e)
  {
    var before := run[..|run| - 1];
    if PlainAt(before, k, f) {
      OffLonger(run, k, f, e);
      forall j | k < j < |run|
        ensures !IsPending(run[j], e.ptr)
      {
        if j < |before| {
          assert !IsPending(before[j], f.ptr);
        }
      }
    } else {
      DeferredLonger(run, k, f, e);
      PendingLonger(run, k, e.ptr);
    }
  }

  /** An entry that has just been taken off meta_. */
  lemma OffNow(run: seq<State>, e: Entry)
    requires |run| >= 2 && JustOff(run[|run| - 2], e) && OffAt(run[|run| - 1], e)
    ensures OffSince(run, |run| - 2, e)
  {
  }

  lemma MarkedBehind(run: seq<State>, k: nat, f: Entry, e: Entry)
    requires IsRun(run) && k < |run| && MarksBehind(f.marks, run[k].enqueued) && Marked(run[|run| - 1], f, e)
    ensures MarksBehind(e.marks, run[k].enqueued)
  {
    var stream :| e.marks == f.marks + [Mark(stream, Count(run[|run| - 1].enqueued, stream))];
    EnqueuedGrows(run, k, |run| - 1, stream);
  }

  lemma DeferringTraced(run: seq<State>, s: State, s': State, e: Entry) returns (k: nat)
    requires |run| >= 2 && s == run[|run| - 2] && s' == run[|run| - 1]
    requires IsRun(run[..|run| - 1]) && TracedTo(run[..|run| - 1], s)
    requires Deferring(s, e) || MarkedFrom(s, e) || (FreedBy(s, e.ptr, s') && JustOff(s, e) && e.meta.recorded_streams != [])
    requires OffAt(s', e)
    ensures DeferredAt(run, k, e)
  {
    var before := run[..|run| - 1];
    if Deferring(s, e) {
      k := OriginOfDeferring(before, s, e);
      DeferredLonger(run, k, e, e);
    } else if MarkedFrom(s, e) {
      var f :| Deferring(s, f) && Marked(s, f, e);
      k := OriginOfDeferring(before, s, f);
      MarkedBehind(before, k, f, e);
      DeferredLonger(run, k, f, e);
    } else {
      k := |run| - 2;
      OffNow(run, e);
    }
  }

  /** An entry that was leaving already. */
  lemma DroppedTraced(run: seq<State>, s: State, e: Entry) returns (k: nat)
    requires |run| >= 2 && TracedTo(run[..|run| - 1], s) && DroppedFrom(s, e)
    requires OffAt(run[|run| - 1], e) && !IsPending(run[|run| - 1], e.ptr)
    ensures LeftAt(run, k, e)
  {
    var f :| Leaving(s, f) && Dropped(f, e);
    k := OriginOfLeaving(run[..|run| - 1], s, f);
    LeftLonger(run, k, f, e);
  }

  /** An entry taken off the pending list. */
  lemma TakenTraced(run: seq<State>, s: State, e: Entry) returns (k: nat)
    requires |run| >= 2 && s == run[|run| - 2] && TracedTo(run[..|run| - 1], s) && e in s.pending && Deferred(e)
    requires OffAt(run[|run| - 1], e)
    ensures LeftAt(run, k, e)
  {
    k := OriginOfDeferring(run[..|run| - 1], s, e);
    DeferredLonger(run, k, e, e);
    assert IsPending(run[|run| - 2], e.ptr);
  }

  /** An entry freed for good by the last step. */
  lemma GoneTraced(run: seq<State>, e: Entry)
    requires |run| >= 2 && JustOff(run[|run| - 2], e) && GoneBy(run[|run| - 2], e, run[|run| - 1])
    requires OffAt(run[|run| - 1], e) && !IsPending(run[|run| - 1], e.ptr)
    ensures LeftAt(run, |run| - 2, e)
  {
    OffNow(run, e);
  }

  lemma LeavingTraced(run: seq<State>, s: State, s': State, e: Entry) returns (k: nat)
    requires |run| >= 2 && s == run[|run| - 2] && s' == run[|run| - 1] && TracedTo(run[..|run| - 1], s)
    requires DroppedFrom(s, e) || e in s.pending || (GoneBy(s, e, s') && JustOff(s, e))
    requires OffAt(s', e) && !IsPending(s', e.ptr) && (e in s.pending ==> Deferred(e))
    ensures LeftAt(run, k, e)
  {
    if DroppedFrom(s, e) {
      k := DroppedTraced(run, s, e);
    } else if e in s.pending {
      k := TakenTraced(run, s, e);
    } else {
      k := |run| - 2;
      GoneTraced(run, e);
    }
  }

  lemma {:induction false} RunIsTraced(run: seq<State>)
    requires IsRun(run)
    ensures Traced(run)
  {
    var n := |run| - 1;
    if n == 0 {
    } else {
      var before := run[..n];
      RunBefore(run);
      RunIsTraced(before);
      var b0 := RunIsConsistent(before);
      var b := RunIsConsistent(run);
      assert Step(run[n - 1], run[n]);
      var t, a :| Next(run[n - 1], t, a, run[n]);
      forall e | Deferring(run[n], e)
        ensures exists k :: DeferredAt(run, k, e)
      {
        DeferringBefore(run[n - 1], t, a, run[n], e);
        DeferringIsOff(run[n], b, e);
        var k := DeferringTraced(run, run[n - 1], run[n], e);
      }
      forall e | Leaving(run[n], e)
        ensures exists k :: LeftAt(run, k, e)
      {
        LeavingBefore(run[n - 1], t, a, run[n], e);
        LeavingIsOff(run[n], b, e);
        if e in run[n - 1].pending {
          DeferringIsOff(run[n - 1], b0, e);
        }
        var k := LeavingTraced(run, run[n - 1], run[n], e);
      }
    }
  }

  // ---- the theorems ------------------------------------------------------------------------------------

  /** A pending entry is deferred: it has one event for each of its recorded streams and its
      allocation stream, none of them has been recorded again since, and each was recorded behind all
      work that had been enqueued on its stream when the free took the pointer off meta_, at step k. */
  lemma PendingIsDeferred(run: seq<State>, e: Entry) returns (k: nat)
    requires IsRun(run) && e in run[|run| - 1].pending
    ensures OffSince(run, k, e) && FreedBy(run[k], e.ptr, run[k + 1]) && e.meta.recorded_streams != []
    ensures Streams(e.marks) == Needed(e.meta) && |e.events| == |e.marks|
    ensures var record := run[|run| - 1].record;
            forall i :: 0 <= i < |e.events| ==>
              e.events[i] in record && record[e.events[i]] == e.marks[i] && e.marks[i].pos >= Count(run[k].enqueued, e.marks[i].stream)
  {
    var s := run[|run| - 1];
    var b := RunIsConsistent(run);
    RunIsTraced(run);
    k := OriginOfDeferring(run, s, e);
    PendingSpot(s, b, e);
    assert OpenEvents(Seal);
    assert EntryEvents(e, e.ptr, s.record, b.place);
    forall i | 0 <= i < |e.events|
      ensures e.events[i] in s.record && s.record[e.events[i]] == e.marks[i]
    {
      assert Awaits(e.events[i], e.ptr, e.marks[|e.marks| - |e.events| + i], s.record, b.place);
    }
  }

  /** What had been enqueued on the stream has completed. */
  ghost predicate CaughtUp(enqueued: map<int, nat>, completed: map<int, nat>, stream: int) {
    stream in enqueued && enqueued[stream] > 0 ==> stream in completed && completed[stream] >= enqueued[stream]
  }

  /** When an entry is handed back to its sub-allocator, one step k of the run took its pointer off
      meta_, and the pointer has stayed allocated since. That step was a free or the release of a
      pool, not both. If it was a free with recorded streams, all work that had been enqueued by then
      on each of these streams and on the allocation stream has completed; exactly in that case the
      pointer was pending in between. */
  lemma DeferredFreeIsSafe(run: seq<State>, t: nat) returns (k: nat)
    requires IsRun(run) && Enabled(run[|run| - 1], t, Return)
    ensures var e := LocalOf(run[|run| - 1], t).work[0];
            && OffSince(run, k, e)
            && (FreedBy(run[k], e.ptr, run[k + 1]) <==> !ReleasedBy(run[k], e.ptr, run[k + 1]))
            && (FreedBy(run[k], e.ptr, run[k + 1]) && e.meta.recorded_streams != [] <==> WasPending(run, k, e.ptr))
            && (WasPending(run, k, e.ptr) ==>
                  forall stream :: stream == e.meta.alloc_stream || stream in e.meta.recorded_streams ==>
                    CaughtUp(run[k].enqueued, run[|run| - 1].completed, stream))
  {
    var s := run[|run| - 1];
    var e := LocalOf(s, t).work[0];
    RunIsTraced(run);
    assert LeavingAt(s, t, e);
    k := OriginOfLeaving(run, s, e);
    if FreedBy(run[k], e.ptr, run[k + 1]) {
      FreedOrReleased(run[k], e.ptr, run[k + 1]);
    }
    if WasPending(run, k, e.ptr) {
      WorkIsDone(run, t, k);
    }
  }

  lemma WorkIsDone(run: seq<State>, t: nat, k: nat)
    requires IsRun(run) && Enabled(run[|run| - 1], t, Return) && DeferredAt(run, k, LocalOf(run[|run| - 1], t).work[0])
    requires var e := LocalOf(run[|run| - 1], t).work[0]; Streams(e.marks) == Needed(e.meta)
    ensures var e := LocalOf(run[|run| - 1], t).work[0];
            forall stream :: stream == e.meta.alloc_stream || stream in e.meta.recorded_streams ==>
              CaughtUp(run[k].enqueued, run[|run| - 1].completed, stream)
  {
    var s := run[|run| - 1];
    var e := LocalOf(s, t).work[0];
    var b := RunIsConsistent(run);
    assert HeldBy(LocalOf(s, t))[0] == e;
    ThreadSpot(s, b, t, 0);
    WaitedIsReached(s, b, e);
    forall stream | stream == e.meta.alloc_stream || stream in e.meta.recorded_streams
      ensures CaughtUp(run[k].enqueued, s.completed, stream)
    {
      MarkOf(e, stream, s.completed, run[k].enqueued);
    }
  }

  lemma MarkOf(e: Entry, stream: int, completed: map<int, nat>, enqueued: map<int, nat>)
    requires Streams(e.marks) == Needed(e.meta) && AllReached(e, completed) && MarksBehind(e.marks, enqueued)
    requires stream == e.meta.alloc_stream || stream in e.meta.recorded_streams
    ensures CaughtUp(enqueued, completed, stream)
  {
    assert stream in Needed(e.meta);
    var i :| 0 <= i < |e.marks| && Streams(e.marks)[i] == stream;
    assert e.marks[i].stream == stream && Reached(completed, e.marks[i]);
  }

  // ---- recorded streams ----------------------------------------------------------------------------------

  ghost predicate Noted(s: State, p: nat, stream: int) {
    p in s.meta && stream in s.meta[p].recorded_streams
  }

  lemma NotedStays(s: State, t: nat, a: Action, s': State, p: nat, stream: int)
    requires Next(s, t, a, s') && !a.Insert? && Noted(s, p, stream) && p in s'.meta
    ensures Noted(s', p, stream)
  {
    if a.RecordStream? {
    } else if Allocates(a) {
    } else if Retires(a) {
    } else {
      assert a.Release? || s'.meta == s.meta;
    }
  }

  lemma InsertKeeps(s: State, b: Book, t: nat, s': State, p: nat)
    requires Consistent(s, b) && Next(s, t, Insert, s') && p in s.meta
    ensures p in s'.meta && s'.meta[p] == s.meta[p]
  {
    assert HeldBy(LocalOf(s, t))[0] == LocalOf(s, t).entry;
    SpotIsOwned(s, b, LocalOf(s, t).entry.ptr, WithThread(t, 0));
    SpotIsOwned(s, b, p, Live);
  }

  lemma StepRemembers(s: State, b: Book, s': State, p: nat, stream: int)
    requires Consistent(s, b) && Step(s, s') && Noted(s, p, stream) && p in s'.meta
    ensures Noted(s', p, stream)
  {
    var t, a :| Next(s, t, a, s');
    if a.Insert? {
      InsertKeeps(s, b, t, s', p);
    } else {
      NotedStays(s, t, a, s', p, stream);
    }
  }

  lemma NextRemembers(run: seq<State>, i: nat, j: nat, p: nat, stream: int)
    requires IsRun(run) && j == i + 1 && j < |run| && Noted(run[i], p, stream) && p in run[j].meta
    ensures Noted(run[j], p, stream)
  {
    PrefixIsRun(run, i);
    var b := RunIsConsistent(run[..i + 1]);
    StepRemembers(run[i], b, run[j], p, stream);
  }

  /** The pointer is live from step j to step k. */
  ghost predicate LiveFrom(run: seq<State>, j: nat, k: nat, p: nat) {
    k < |run| && forall i :: j <= i <= k ==> p in run[i].meta
  }

  /** A stream recorded on a pointer stays recorded as long as the pointer is live. */
  lemma {:induction false} StreamRemembered(run: seq<State>, j: nat, k: nat, p: nat, stream: int)
    requires IsRun(run) && j <= k && LiveFrom(run, j, k, p) && Noted(run[j], p, stream)
    ensures Noted(run[k], p, stream)
  {
    if j < k {
      var i := k - 1;
      assert LiveFrom(run, j, i, p) && p in run[k].meta;
      StreamRemembered(run, j, i, p, stream);
      NextRemembers(run, i, k, p, stream);
    }
  }

  lemma RecordNotes(s: State, u: nat, p: nat, stream: int, s': State)
    requires Next(s, u, RecordStream(p, stream), s')
    ensures Noted(s', p, stream)
  {
  }

  lemma OffOnce(run: seq<State>, e: Entry, k: nat, l: nat)
    requires OffSince(run, k, e) && OffSince(run, l, e)
    ensures k == l
  {
    assert k < l ==> OffAt(run[l], e);
    assert l < k ==> OffAt(run[k], e);
  }

  lemma NotedIsDone(run: seq<State>, t: nat, e: Entry, stream: int, k: nat)
    requires IsRun(run) && Enabled(run[|run| - 1], t, Return) && e == LocalOf(run[|run| - 1], t).work[0]
    requires OffSince(run, k, e) && FreedBy(run[k], e.ptr, run[k + 1]) && stream in e.meta.recorded_streams
    ensures CaughtUp(run[k].enqueued, run[|run| - 1].completed, stream)
  {
    var l := DeferredFreeIsSafe(run, t);
    OffOnce(run, e, k, l);
  }

  /** The promise of record_stream: once it has been called for a live pointer and a stream, by whatever
      thread, in step j, and the pointer is later freed in step k, the pointer is not handed back to its
      sub-allocator before all work enqueued on the stream by step k has completed. */
  lemma RecordedUseIsDone(run: seq<State>, t: nat, j: nat, u: nat, stream: int, k: nat)
    requires IsRun(run) && Enabled(run[|run| - 1], t, Return)
    requires var e := LocalOf(run[|run| - 1], t).work[0];
             && j < k < |run| - 1 && Next(run[j], u, RecordStream(e.ptr, stream), run[j + 1]) && LiveFrom(run, j, k, e.ptr)
             && OffSince(run, k, e) && FreedBy(run[k], e.ptr, run[k + 1])
    ensures CaughtUp(run[k].enqueued, run[|run| - 1].completed, stream)
  {
    var e := LocalOf(run[|run| - 1], t).work[0];
    RecordNotes(run[j], u, e.ptr, stream, run[j + 1]);
    StreamRemembered(run, j + 1, k, e.ptr, stream);
    NotedIsDone(run, t, e, stream, k);
  }
}

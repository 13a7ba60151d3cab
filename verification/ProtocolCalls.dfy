/** Calls that no other thread interrupts. In any run, a call to allocate, free or release a pool whose
    steps are interleaved with no other thread's changes the records as Ledger says; the one-thread
    model of the allocator meets the same predicates. */
module ProtocolCalls {
  import opened Common
  import opened Ledger
  import opened Protocol
  import opened ProtocolSteps
  import opened ProtocolSafety
  import opened ProtocolTheorems
  import opened ProtocolHistory

  /** A step of thread t, or of the application or the GPU. */
  ghost predicate StepOf(s: State, t: nat, s': State) {
    exists u, a :: StepBy(s, t, s', u, a)
  }

  ghost predicate StepBy(s: State, t: nat, s': State, u: nat, a: Action) {
    Next(s, u, a, s') && (u == t || a.Enqueue? || a.Complete?)
  }

  ghost predicate BusyStep(s: State, t: nat, s': State) {
    !LocalOf(s, t).Idle? && StepOf(s, t, s')
  }

  /** After step k only thread t takes steps, and it is busy until the last state. */
  ghost predicate Uninterrupted(run: seq<State>, k: nat, t: nat) {
    forall i, j :: k < i && j == i + 1 && j < |run| ==> BusyStep(run[i], t, run[j])
  }

  lemma UninterruptedBefore(run: seq<State>, k: nat, t: nat)
    requires IsRun(run) && Uninterrupted(run, k, t) && k + 2 < |run|
    ensures IsRun(run[..|run| - 1]) && Uninterrupted(run[..|run| - 1], k, t)
    ensures BusyStep(run[|run| - 2], t, run[|run| - 1])
  {
    RunBefore(run);
    var before := run[..|run| - 1];
    forall i, j | k < i && j == i + 1 && j < |before|
      ensures BusyStep(before[i], t, before[j])
    {
      assert before[i] == run[i] && before[j] == run[j];
    }
  }

  ghost predicate Healthy(s: State) {
    exists b :: Consistent(s, b)
  }

  /** Busy steps of thread t keep the property. */
  ghost predicate Keeps(t: nat, inv: State -> bool) {
    forall s, s' {:trigger inv(s), BusyStep(s, t, s')} :: Healthy(s) && inv(s) && BusyStep(s, t, s') ==> inv(s')
  }

  lemma KeepsOnce(t: nat, inv: State -> bool, s: State, s': State)
    requires Keeps(t, inv) && Healthy(s) && inv(s) && BusyStep(s, t, s')
    ensures inv(s')
  {
  }

  /** What the first step of a call brings about and every further one keeps holds at its end. */
  lemma {:induction false} CallKeeps(run: seq<State>, k: nat, t: nat, inv: State -> bool)
    requires IsRun(run) && Uninterrupted(run, k, t) && k + 1 < |run| && inv(run[k + 1]) && Keeps(t, inv)
    ensures inv(run[|run| - 1])
  {
    if k + 2 < |run| {
      var before := run[..|run| - 1];
      UninterruptedBefore(run, k, t);
      CallKeeps(before, k, t, inv);
      RunIsHealthy(before);
      KeepsOnce(t, inv, before[|before| - 1], run[|run| - 1]);
    }
  }

  lemma RunIsHealthy(run: seq<State>)
    requires IsRun(run)
    ensures Healthy(run[|run| - 1])
  {
    var b := RunIsConsistent(run);
  }

  ghost function PendingPtrs(pending: multiset<Entry>): set<nat> {
    set e | e in pending :: e.ptr
  }

  ghost function EntryOf(pending: multiset<Entry>, p: nat): Entry
    requires p in PendingPtrs(pending)
  {
    var e :| e in pending && e.ptr == p; e
  }

  /** The deferred frees, by pointer. */
  ghost function LateOf(pending: multiset<Entry>): Metas {
    map p | p in PendingPtrs(pending) :: EntryOf(pending, p).meta
  }

  ghost predicate OncePerPointer(pending: multiset<Entry>) {
    && (forall e :: e in pending ==> pending[e] == 1)
    && (forall e, f :: e in pending && f in pending && e.ptr == f.ptr ==> e == f)
  }

  lemma PendingOncePerPointer(s: State, b: Book)
    requires Consistent(s, b)
    ensures OncePerPointer(s.pending)
  {
    forall e | e in s.pending
      ensures s.pending[e] == 1 && e.ptr in b.late && b.late[e.ptr] == e
    {
      PendingSpot(s, b, e);
    }
  }

  lemma LateOfEntry(pending: multiset<Entry>, e: Entry)
    requires OncePerPointer(pending) && e in pending
    ensures e.ptr in LateOf(pending) && LateOf(pending)[e.ptr] == e.meta
  {
    assert e.ptr in PendingPtrs(pending);
  }

  /** A step of the application or the GPU. */
  lemma OutsideStep(s: State, u: nat, a: Action, s': State)
    requires Next(s, u, a, s') && (a.Enqueue? || a.Complete?)
    ensures s'.threads == s.threads && s'.meta == s.meta && s'.index == s.index && s'.pending == s.pending
  {
  }

  // ---- free ---------------------------------------------------------------------------------------

  /** Thread t is inside free_impl(p), entered in state s0, or has just left it. */
  ghost predicate Freeing(s0: State, p: nat, t: nat, s: State) {
    && p in s0.meta && s.meta == s0.meta - {p} && s.index == Delist(s0.index, s0.meta[p].pool_id, p)
    && var deferred := s0.meta[p].recorded_streams != [];
       match LocalOf(s, t)
       case Draining(_, _, after) => !deferred && after.None? && s.pending == s0.pending
       case Retiring(e, _, _) => deferred && e.ptr == p && e.meta == s0.meta[p] && s.pending == s0.pending
       case Idle => if deferred then Pushed(s0.pending, p, s0.meta[p], s.pending) else s.pending == s0.pending
       case _ => false
  }

  ghost predicate Pushed(pending0: multiset<Entry>, p: nat, m: AllocMeta, pending: multiset<Entry>) {
    exists e: Entry :: e.ptr == p && e.meta == m && pending == pending0 + multiset{e}
  }

  lemma FreeingStart(s: State, t: nat, p: nat, s': State)
    requires Next(s, t, Free(p), s')
    ensures Freeing(s, p, t, s')
  {
  }

  lemma FreeingOn(s0: State, p: nat, t: nat, s: State, a: Action, s': State)
    requires Freeing(s0, p, t, s) && !LocalOf(s, t).Idle? && Next(s, t, a, s')
    ensures Freeing(s0, p, t, s')
  {
  }

  lemma FreeingStep(s0: State, p: nat, t: nat, s: State, s': State)
    requires Freeing(s0, p, t, s) && BusyStep(s, t, s')
    ensures Freeing(s0, p, t, s')
  {
    var u, a :| StepBy(s, t, s', u, a);
    if a.Enqueue? || a.Complete? {
      OutsideStep(s, u, a, s');
    } else {
      FreeingOn(s0, p, t, s, a, s');
    }
  }

  lemma LateAfterPush(pending: multiset<Entry>, e: Entry, all: multiset<Entry>)
    requires all == pending + multiset{e} && OncePerPointer(all)
    ensures LateOf(all) == LateOf(pending)[e.ptr := e.meta]
  {
    LateOfEntry(all, e);
    forall q | q in PendingPtrs(pending)
      ensures q in LateOf(all) && (q != e.ptr ==> LateOf(all)[q] == LateOf(pending)[q])
    {
      LateOfEntry(all, EntryOf(pending, q));
    }
    forall q | q in PendingPtrs(all) && q != e.ptr
      ensures q in PendingPtrs(pending)
    {
      assert EntryOf(all, q) in pending;
    }
  }

  /** An uninterrupted free_impl. */
  lemma FreeAlone(run: seq<State>, k: nat, t: nat, p: nat)
    requires IsRun(run) && k + 1 < |run| && Next(run[k], t, Free(p), run[k + 1]) && Uninterrupted(run, k, t)
    requires LocalOf(run[|run| - 1], t).Idle?
    ensures var s, s' := run[k], run[|run| - 1];
            FreeEffect(s.meta, s.index, LateOf(s.pending), p, s'.meta, s'.index, LateOf(s'.pending))
  {
    var s, s' := run[k], run[|run| - 1];
    FreeingStart(s, t, p, run[k + 1]);
    forall x, y | Freeing(s, p, t, x) && BusyStep(x, t, y)
      ensures Freeing(s, p, t, y)
    {
      FreeingStep(s, p, t, x, y);
    }
    CallKeeps(run, k, t, x => Freeing(s, p, t, x));
    if s.meta[p].recorded_streams != [] {
      var e: Entry :| e.ptr == p && e.meta == s.meta[p] && s'.pending == s.pending + multiset{e};
      var b := RunIsConsistent(run);
      PendingOncePerPointer(s', b);
      LateAfterPush(s.pending, e, s'.pending);
    }
  }

  // ---- release ------------------------------------------------------------------------------------

  ghost predicate PoolTaken(pending0: multiset<Entry>, id: PoolId, pending: multiset<Entry>) {
    forall e :: pending[e] == if e.meta.pool_id == id then 0 else pending0[e]
  }

  /** Thread t is inside releasePool(id), entered in state s0, or has just left it. */
  ghost predicate Releasing(s0: State, id: PoolId, t: nat, s: State) {
    && s.meta == s0.meta - Tagged(s0.meta, id) && s.index == s0.index - {id} && PoolTaken(s0.pending, id, s.pending)
    && match LocalOf(s, t)
       case Syncing(_, _, _) => true
       case Draining(_, _, after) => after.None?
       case Idle => true
       case _ => false
  }

  lemma ReleasingStart(s: State, b: Book, t: nat, id: PoolId, live: seq<Entry>, taken: seq<Entry>, s': State)
    requires Consistent(s, b) && Next(s, t, Release(id, live, taken), s')
    ensures Releasing(s, id, t, s')
  {
    LiveIsTagged(s.meta, s.index, id, live);
  }

  lemma ReleasingOn(s0: State, id: PoolId, t: nat, s: State, a: Action, s': State)
    requires Releasing(s0, id, t, s) && !LocalOf(s, t).Idle? && Next(s, t, a, s')
    ensures Releasing(s0, id, t, s')
  {
  }

  lemma ReleasingStep(s0: State, id: PoolId, t: nat, s: State, s': State)
    requires Releasing(s0, id, t, s) && BusyStep(s, t, s')
    ensures Releasing(s0, id, t, s')
  {
    var u, a :| StepBy(s, t, s', u, a);
    if a.Enqueue? || a.Complete? {
      OutsideStep(s, u, a, s');
    } else {
      ReleasingOn(s0, id, t, s, a, s');
    }
  }

  lemma LateAfterTake(pending: multiset<Entry>, id: PoolId, rest: multiset<Entry>)
    requires OncePerPointer(pending) && PoolTaken(pending, id, rest)
    ensures LateOf(rest) == LateOf(pending) - Tagged(LateOf(pending), id)
  {
    forall p | p in PendingPtrs(rest)
      ensures p in LateOf(pending) && LateOf(pending)[p] == LateOf(rest)[p] && LateOf(rest)[p].pool_id != id
    {
      LateOfEntry(pending, EntryOf(rest, p));
    }
    forall p | p in PendingPtrs(pending) && LateOf(pending)[p].pool_id != id
      ensures p in PendingPtrs(rest)
    {
      assert EntryOf(pending, p) in rest;
    }
  }

  /** An uninterrupted releasePool. */
  lemma ReleaseAlone(run: seq<State>, k: nat, t: nat, id: PoolId, live: seq<Entry>, taken: seq<Entry>)
    requires IsRun(run) && k + 1 < |run| && Next(run[k], t, Release(id, live, taken), run[k + 1]) && Uninterrupted(run, k, t)
    requires LocalOf(run[|run| - 1], t).Idle?
    ensures var s, s' := run[k], run[|run| - 1];
            ReleaseEffect(s.meta, s.index, LateOf(s.pending), id, s'.meta, s'.index, LateOf(s'.pending))
  {
    var s, s' := run[k], run[|run| - 1];
    PrefixIsRun(run, k);
    var b := RunIsConsistent(run[..k + 1]);
    ReleasingStart(s, b, t, id, live, taken, run[k + 1]);
    forall x, y | Releasing(s, id, t, x) && BusyStep(x, t, y)
      ensures Releasing(s, id, t, y)
    {
      ReleasingStep(s, id, t, x, y);
    }
    CallKeeps(run, k, t, x => Releasing(s, id, t, x));
    PendingOncePerPointer(s, b);
    LateAfterTake(s.pending, id, s'.pending);
  }

  // ---- allocate -----------------------------------------------------------------------------------

  ghost predicate RecordsAdded(s0: State, p: nat, m: AllocMeta, s: State) {
    && p !in s0.meta && p !in PendingPtrs(s.pending)
    && s.meta == s0.meta[p := m] && s.index == Enlist(s0.index, m.pool_id, p)
  }

  ghost predicate RecordsKept(s0: State, s: State) {
    s.meta == s0.meta && s.index == s0.index
  }

  /** Thread t is inside alloc_impl with request m, entered in state s0, or has just left it. */
  ghost predicate InAlloc(s0: State, m: AllocMeta, t: nat, s: State) {
    && s.pending <= s0.pending
    && match LocalOf(s, t)
       case Allocating(request) => request == m && RecordsKept(s0, s)
       case Draining(_, _, after) => after == Some(m) && RecordsKept(s0, s)
       case Obtained(e) => e.meta == m && RecordsKept(s0, s)
       case Idle => RecordsKept(s0, s) || exists p :: RecordsAdded(s0, p, m, s)
       case _ => false
  }

  lemma InAllocStart(s: State, t: nat, m: AllocMeta, s': State)
    requires Next(s, t, Start(m), s')
    ensures InAlloc(s, m, t, s')
  {
  }

  lemma InsertIsNew(s: State, b: Book, t: nat)
    requires Consistent(s, b) && LocalOf(s, t).Obtained?
    ensures var p := LocalOf(s, t).entry.ptr; p !in s.meta && p !in PendingPtrs(s.pending)
  {
    var e := LocalOf(s, t).entry;
    assert HeldBy(LocalOf(s, t))[0] == e;
    ThreadSpot(s, b, t, 0);
    LatePtrs(s.allocated_, s.meta, b.late);
    forall f | f in s.pending
      ensures f.ptr != e.ptr
    {
      PendingSpot(s, b, f);
    }
  }

  lemma InAllocInsert(s0: State, m: AllocMeta, t: nat, s: State, s': State)
    requires Healthy(s) && InAlloc(s0, m, t, s) && Next(s, t, Insert, s')
    ensures InAlloc(s0, m, t, s')
  {
    var b :| Consistent(s, b);
    InsertIsNew(s, b, t);
    assert RecordsAdded(s0, LocalOf(s, t).entry.ptr, m, s');
  }

  lemma InAllocTaking(s0: State, m: AllocMeta, t: nat, s: State, a: Action, s': State)
    requires InAlloc(s0, m, t, s) && !LocalOf(s, t).Idle? && Next(s, t, a, s') && Taking(a)
    ensures InAlloc(s0, m, t, s')
  {
  }

  lemma InAllocOn(s0: State, m: AllocMeta, t: nat, s: State, a: Action, s': State)
    requires InAlloc(s0, m, t, s) && !LocalOf(s, t).Idle? && Next(s, t, a, s') && !a.Insert? && !Taking(a)
    ensures InAlloc(s0, m, t, s')
  {
  }

  lemma InAllocStep(s0: State, m: AllocMeta, t: nat, s: State, s': State)
    requires Healthy(s) && InAlloc(s0, m, t, s) && BusyStep(s, t, s')
    ensures InAlloc(s0, m, t, s')
  {
    var u, a :| StepBy(s, t, s', u, a);
    if a.Enqueue? || a.Complete? {
      OutsideStep(s, u, a, s');
    } else if a.Insert? {
      InAllocInsert(s0, m, t, s, s');
    } else if Taking(a) {
      InAllocTaking(s0, m, t, s, a, s');
    } else {
      InAllocOn(s0, m, t, s, a, s');
    }
  }

  lemma LateThinned(pending: multiset<Entry>, rest: multiset<Entry>)
    requires OncePerPointer(pending) && rest <= pending
    ensures Thinned(LateOf(pending), LateOf(rest))
  {
    forall p | p in PendingPtrs(rest)
      ensures p in LateOf(pending) && LateOf(pending)[p] == LateOf(rest)[p]
    {
      LateOfEntry(pending, EntryOf(rest, p));
    }
  }

  /** An uninterrupted alloc_impl. */
  lemma AllocAlone(run: seq<State>, k: nat, t: nat, m: AllocMeta) returns (p: Option<nat>)
    requires IsRun(run) && k + 1 < |run| && Next(run[k], t, Start(m), run[k + 1]) && Uninterrupted(run, k, t)
    requires LocalOf(run[|run| - 1], t).Idle?
    ensures var s, s' := run[k], run[|run| - 1];
            AllocEffect(s.meta, s.index, LateOf(s.pending), p, m, s'.meta, s'.index, LateOf(s'.pending))
  {
    var s, s' := run[k], run[|run| - 1];
    PrefixIsRun(run, k);
    var b := RunIsConsistent(run[..k + 1]);
    InAllocStart(s, t, m, run[k + 1]);
    forall x, y | Healthy(x) && InAlloc(s, m, t, x) && BusyStep(x, t, y)
      ensures InAlloc(s, m, t, y)
    {
      InAllocStep(s, m, t, x, y);
    }
    CallKeeps(run, k, t, x => InAlloc(s, m, t, x));
    PendingOncePerPointer(s, b);
    LateThinned(s.pending, s'.pending);
    if q :| RecordsAdded(s, q, m, s') {
      p := Some(q);
    } else {
      p := None;
    }
  }
}

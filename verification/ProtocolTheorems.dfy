/** What holds in every reachable state of the protocol, stated on the program's own state. */
module ProtocolTheorems {
  import opened Common
  import opened Ledger
  import opened Protocol
  import opened ProtocolSteps
  import opened ProtocolSafety

  lemma RunBefore(run: seq<State>)
    requires IsRun(run) && |run| >= 2
    ensures IsRun(run[..|run| - 1])
  {
    var before := run[..|run| - 1];
    forall i, j | 0 <= i && j == i + 1 && j < |before|
      ensures Step(before[i], before[j])
    {
      assert before[i] == run[i] && before[j] == run[j];
    }
  }

  lemma PrefixIsRun(run: seq<State>, k: nat)
    requires IsRun(run) && k < |run|
    ensures IsRun(run[..k + 1]) && run[..k + 1][|run[..k + 1]| - 1] == run[k]
  {
    var before := run[..k + 1];
    forall i, j | 0 <= i && j == i + 1 && j < |before|
      ensures Step(before[i], before[j])
    {
      assert before[i] == run[i] && before[j] == run[j];
    }
  }

  lemma {:induction false} RunIsConsistent(run: seq<State>) returns (b: Book)
    requires IsRun(run)
    ensures Consistent(run[|run| - 1], b)
  {
    var n := |run| - 1;
    if n == 0 {
      b := Book(map[], map[], map[]);
    } else {
      var before := run[..n];
      RunBefore(run);
      b := RunIsConsistent(before);
      assert Step(run[n - 1], run[n]);
      var t, a :| Next(run[n - 1], t, a, run[n]);
      b := StepKeepsConsistent(run[n - 1], b, t, a);
    }
  }

  // ---- conservation of pointers ---------------------------------------------------------------------

  /** Where the program keeps a pointer: in meta_, in an entry of pending_frees_, or with a thread. */
  datatype Spot = Live | Pending(e: Entry) | WithThread(t: nat, i: nat)

  ghost predicate KeptAt(s: State, p: nat, spot: Spot) {
    match spot
    case Live => p in s.meta
    case Pending(e) => e in s.pending && e.ptr == p
    case WithThread(t, i) => i < |HeldBy(LocalOf(s, t))| && HeldBy(LocalOf(s, t))[i].ptr == p
  }

  /** The record kept with the pointer. */
  ghost function RecordAt(s: State, p: nat, spot: Spot): AllocMeta
    requires KeptAt(s, p, spot)
  {
    match spot
    case Live => s.meta[p]
    case Pending(e) => e.meta
    case WithThread(t, i) => HeldBy(LocalOf(s, t))[i].meta
  }

  lemma ThreadSpot(s: State, b: Book, t: nat, i: nat)
    requires Consistent(s, b) && i < |HeldBy(LocalOf(s, t))|
    ensures var e := HeldBy(LocalOf(s, t))[i];
            && e.ptr in b.late && b.late[e.ptr] == e && e.ptr in b.holder && b.holder[e.ptr] == InThread(t)
  {
    LocalHolds(s.threads, b.late, b.holder, s, t);
    assert HoldsOne(HeldBy(LocalOf(s, t))[i], t, b.late, b.holder);
  }

  lemma ThreadSpotsDiffer(s: State, b: Book, t: nat, i: nat, j: nat)
    requires Consistent(s, b) && i < |HeldBy(LocalOf(s, t))| && j < |HeldBy(LocalOf(s, t))|
    requires HeldBy(LocalOf(s, t))[i].ptr == HeldBy(LocalOf(s, t))[j].ptr
    ensures i == j
  {
    LocalHolds(s.threads, b.late, b.holder, s, t);
    assert i < j || i == j || j < i;
  }

  lemma PendingSpot(s: State, b: Book, e: Entry)
    requires Consistent(s, b) && e in s.pending
    ensures s.pending[e] == 1 && e.ptr in b.late && b.late[e.ptr] == e && e.ptr in b.holder && b.holder[e.ptr] == InPending
    ensures Deferred(e)
  {
    assert OpenPend(Seal);
  }

  lemma SpotIsOwned(s: State, b: Book, p: nat, spot: Spot)
    requires Consistent(s, b) && KeptAt(s, p, spot)
    ensures p in s.allocated_ && s.allocated_[p] == OwnerOf(RecordAt(s, p, spot))
    ensures match spot
            case Live => p !in b.late
            case Pending(e) => p in b.late && b.late[p] == e && p in b.holder && b.holder[p] == InPending
            case WithThread(t, i) => p in b.late && p in b.holder && b.holder[p] == InThread(t)
  {
    match spot {
      case Live =>
      case Pending(e) => PendingSpot(s, b, e);
      case WithThread(t, i) => ThreadSpot(s, b, t, i);
    }
    assert OpenOwn(Seal);
  }

  lemma SpotsAgree(s: State, b: Book, p: nat, x: Spot, y: Spot)
    requires Consistent(s, b) && KeptAt(s, p, x) && KeptAt(s, p, y)
    ensures x == y
  {
    SpotIsOwned(s, b, p, x);
    SpotIsOwned(s, b, p, y);
    match x {
      case Live =>
      case Pending(e) =>
      case WithThread(t, i) => ThreadSpotsDiffer(s, b, t, i, y.i);
    }
  }

  lemma OwnedHasSpot(s: State, b: Book, p: nat) returns (spot: Spot)
    requires Consistent(s, b) && p in s.allocated_
    ensures KeptAt(s, p, spot)
  {
    assert OpenOwn(Seal);
    if p in s.meta {
      spot := Live;
    } else {
      HolderKeys(s.pending, b.late, b.holder);
      match b.holder[p] {
        case InPending =>
          assert OpenPend(Seal);
          spot := Pending(b.late[p]);
        case InThread(t) =>
          LocalHolds(s.threads, b.late, b.holder, s, t);
          var held := HeldBy(LocalOf(s, t));
          assert p in PtrsOf(held);
          var e :| e in held && e.ptr == p;
          var i :| 0 <= i < |held| && held[i] == e;
          spot := WithThread(t, i);
      }
    }
  }

  /** In every reachable state the sub-allocators' pointers are the disjoint union of the keys of
      meta_, the pointers of pending_frees_ and those held by threads between critical sections.
      Each is kept once, with the device and the side it came from. */
  lemma PointersConserved(run: seq<State>)
    requires IsRun(run)
    ensures var s := run[|run| - 1];
            && (forall p :: p in s.allocated_ ==> exists spot :: KeptAt(s, p, spot))
            && (forall p, spot :: KeptAt(s, p, spot) ==> p in s.allocated_ && s.allocated_[p].device == RecordAt(s, p, spot).device
                                                         && s.allocated_[p].is_large == RecordAt(s, p, spot).is_large)
            && (forall p, x, y :: KeptAt(s, p, x) && KeptAt(s, p, y) ==> x == y)
            && (forall e :: e in s.pending ==> s.pending[e] == 1)
  {
    var s := run[|run| - 1];
    var b := RunIsConsistent(run);
    forall p | p in s.allocated_
      ensures exists spot :: KeptAt(s, p, spot)
    {
      var spot := OwnedHasSpot(s, b, p);
    }
    forall p, spot | KeptAt(s, p, spot)
      ensures p in s.allocated_ && s.allocated_[p].device == RecordAt(s, p, spot).device
              && s.allocated_[p].is_large == RecordAt(s, p, spot).is_large
    {
      SpotIsOwned(s, b, p, spot);
    }
    forall p, x, y | KeptAt(s, p, x) && KeptAt(s, p, y)
      ensures x == y
    {
      SpotsAgree(s, b, p, x, y);
    }
    forall e | e in s.pending
      ensures s.pending[e] == 1
    {
      PendingSpot(s, b, e);
    }
  }

  /** No run ever frees a pointer its sub-allocator does not know, or overwrites a live record. */
  lemma NeverFaults(run: seq<State>)
    requires IsRun(run)
    ensures !run[|run| - 1].fault
  {
    var b := RunIsConsistent(run);
  }

  /** In every reachable state each entry of pool_allocs_ lists exactly the live pointers tagged with
      its id, and no tagged live pointer lacks an entry. */
  lemma PoolIndexExact(run: seq<State>)
    requires IsRun(run)
    ensures var s := run[|run| - 1];
            && (forall id <- s.index :: id != NO_POOL && s.index[id] == Tagged(s.meta, id))
            && (forall p <- s.meta :: s.meta[p].pool_id == NO_POOL || s.meta[p].pool_id in s.index)
  {
    var b := RunIsConsistent(run);
    assert OpenIndex(Seal);
    var s := run[|run| - 1];
    forall p | p in s.meta
      ensures s.meta[p].pool_id == NO_POOL || s.meta[p].pool_id in s.index
    {
      assert HasEntry(s.index, s.meta[p].pool_id);
    }
  }

  // ---- conservation of events --------------------------------------------------------------------------

  /** Where the program keeps an event: in the pool, in a thread's hand before it is recorded, or
      among the events of the entry kept at a spot. */
  datatype EventSpot = Pooled(k: nat) | InHandOfThread(t: nat) | OfEntry(p: nat, k: nat)

  ghost predicate EventAt(s: State, late: map<nat, Entry>, event: nat, spot: EventSpot) {
    match spot
    case Pooled(k) => k < |s.pool| && s.pool[k] == event
    case InHandOfThread(t) => InHandOf(s.threads, t, event)
    case OfEntry(p, k) => p in late && k < |late[p].events| && late[p].events[k] == event
  }

  lemma EventSpotsAgree(s: State, b: Book, event: nat, x: EventSpot, y: EventSpot)
    requires Consistent(s, b) && EventAt(s, b.late, event, x) && EventAt(s, b.late, event, y)
    ensures x == y
  {
    EventPlaced(s, b, event, x);
    EventPlaced(s, b, event, y);
    assert OpenEvents(Seal);
    if x.OfEntry? && y.OfEntry? {
      assert EntryEvents(b.late[x.p], x.p, s.record, b.place);
    }
    if !x.InHandOfThread? && !y.InHandOfThread? {
      var i, j := x.k, y.k;
      assert i < j || i == j || j < i;
    }
  }

  lemma EventPlaced(s: State, b: Book, event: nat, x: EventSpot)
    requires Consistent(s, b) && EventAt(s, b.late, event, x)
    ensures event in b.place
    ensures b.place[event] == match x
                              case Pooled(_) => InPool
                              case InHandOfThread(t) => InHand(t)
                              case OfEntry(p, _) => With(p)
  {
    assert OpenEvents(Seal);
    match x {
      case Pooled(k) =>
      case InHandOfThread(t) =>
      case OfEntry(p, k) =>
        assert EntryEvents(b.late[p], p, s.record, b.place);
        assert Awaits(b.late[p].events[k], p, b.late[p].marks[|b.late[p].marks| - |b.late[p].events| + k], s.record, b.place);
    }
  }

  lemma EventHasSpot(s: State, b: Book, event: nat) returns (x: EventSpot)
    requires Consistent(s, b) && event in s.record
    ensures EventAt(s, b.late, event, x)
  {
    assert OpenEvents(Seal);
    assert FoundAt(event, b.place[event], s.pool, b.late, s.threads);
    match b.place[event] {
      case InPool =>
        var k :| 0 <= k < |s.pool| && s.pool[k] == event;
        x := Pooled(k);
      case InHand(t) => x := InHandOfThread(t);
      case With(p) =>
        var k :| 0 <= k < |b.late[p].events| && b.late[p].events[k] == event;
        x := OfEntry(p, k);
    }
  }

  /** late lists exactly the entries of the pending list and of the threads. */
  ghost predicate LateEntries(s: State, late: map<nat, Entry>) {
    && (forall p <- late :: exists spot: Spot :: !spot.Live? && KeptAt(s, p, spot) && EntryAt(s, p, spot) == late[p])
    && (forall p, spot: Spot :: !spot.Live? && KeptAt(s, p, spot) ==> p in late)
  }

  ghost function EntryAt(s: State, p: nat, spot: Spot): Entry
    requires KeptAt(s, p, spot) && !spot.Live?
  {
    if spot.Pending? then spot.e else HeldBy(LocalOf(s, spot.t))[spot.i]
  }

  lemma LateIsListed(s: State, b: Book)
    requires Consistent(s, b)
    ensures LateEntries(s, b.late)
  {
    forall p | p in b.late
      ensures exists spot: Spot :: !spot.Live? && KeptAt(s, p, spot) && EntryAt(s, p, spot) == b.late[p]
    {
      LatePtrs(s.allocated_, s.meta, b.late);
      var spot := OwnedHasSpot(s, b, p);
      SpotIsOwned(s, b, p, spot);
      if spot.WithThread? {
        ThreadSpot(s, b, spot.t, spot.i);
      }
      assert !spot.Live? && KeptAt(s, p, spot) && EntryAt(s, p, spot) == b.late[p];
    }
    forall p, spot: Spot | !spot.Live? && KeptAt(s, p, spot)
      ensures p in b.late
    {
      SpotIsOwned(s, b, p, spot);
    }
  }

  /** In every reachable state each event ever created is in exactly one place: one slot of the pool,
      the hand of one thread, or one position in one entry that is pending or held by a thread. */
  lemma EventsConserved(run: seq<State>) returns (late: map<nat, Entry>)
    requires IsRun(run)
    ensures var s := run[|run| - 1];
            && LateEntries(s, late)
            && (forall event <- s.record :: exists x :: EventAt(s, late, event, x))
            && (forall event, x, y :: EventAt(s, late, event, x) && EventAt(s, late, event, y) ==> x == y)
  {
    var s := run[|run| - 1];
    var b := RunIsConsistent(run);
    late := b.late;
    LateIsListed(s, b);
    forall event | event in s.record
      ensures exists x :: EventAt(s, late, event, x)
    {
      var x := EventHasSpot(s, b, event);
    }
    forall event, x, y | EventAt(s, late, event, x) && EventAt(s, late, event, y)
      ensures x == y
    {
      EventSpotsAgree(s, b, event, x, y);
    }
  }
}

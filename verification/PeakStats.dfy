/** PoolStats under concurrency: recordAlloc and recordFree as the atomic steps they are made of,
    with any number of threads and spurious failures of the weak compare-and-swap
    (csrc/vmm_allocator.cc:54-84). */
module PeakStats {
  import opened Common
  import opened Sums

  /** Where a thread is inside recordAlloc(n) or recordFree(n). cur and prev are its locals. */
  datatype Phase = Outside
                 | Added(n: nat, cur: int)
                 | Accumulated(cur: int)
                 | Counted(cur: int)
                 | Comparing(cur: int, prev: int)
                 | Subtracted(n: nat)
                 | FreedAccumulated

  datatype State = State(current: int, peak: int, accumulated_alloc: int, accumulated_freed: int,
                         num_allocs: int, num_frees: int, threads: map<nat, Phase>)

  ghost function PhaseOf(s: State, t: nat): Phase {
    if t in s.threads then s.threads[t] else Outside
  }

  ghost function Move(s: State, t: nat, p: Phase): State {
    s.(threads := s.threads[t := p])
  }

  datatype Step = AddCurrent(n: nat) | AddAccumulated | AddCount | LoadPeak | Leave | Swap | SwapFails
                | SubCurrent(n: nat) | AddFreed | AddFreeCount

  /** Thread t takes one atomic step. */
  ghost predicate Next(s: State, t: nat, step: Step, s': State) {
    match step
    case AddCurrent(n) => PhaseOf(s, t).Outside? && s' == Move(s.(current := s.current + n), t, Added(n, s.current + n))
    case AddAccumulated => PhaseOf(s, t).Added?
      && s' == Move(s.(accumulated_alloc := s.accumulated_alloc + PhaseOf(s, t).n), t, Accumulated(PhaseOf(s, t).cur))
    case AddCount => PhaseOf(s, t).Accumulated? && s' == Move(s.(num_allocs := s.num_allocs + 1), t, Counted(PhaseOf(s, t).cur))
    case LoadPeak => PhaseOf(s, t).Counted? && s' == Move(s, t, Comparing(PhaseOf(s, t).cur, s.peak))
    case Leave => PhaseOf(s, t).Comparing? && PhaseOf(s, t).cur <= PhaseOf(s, t).prev && s' == Move(s, t, Outside)
    case Swap => PhaseOf(s, t).Comparing? && PhaseOf(s, t).cur > PhaseOf(s, t).prev && s.peak == PhaseOf(s, t).prev
      && s' == Move(s.(peak := PhaseOf(s, t).cur), t, Outside)
    case SwapFails => PhaseOf(s, t).Comparing? && PhaseOf(s, t).cur > PhaseOf(s, t).prev
      && s' == Move(s, t, Comparing(PhaseOf(s, t).cur, s.peak))
    case SubCurrent(n) => PhaseOf(s, t).Outside? && s' == Move(s.(current := s.current - n), t, Subtracted(n))
    case AddFreed => PhaseOf(s, t).Subtracted?
      && s' == Move(s.(accumulated_freed := s.accumulated_freed + PhaseOf(s, t).n), t, FreedAccumulated)
    case AddFreeCount => PhaseOf(s, t).FreedAccumulated? && s' == Move(s.(num_frees := s.num_frees + 1), t, Outside)
  }

  /** A moment after a peak reset (or the start): nobody is inside, and the peak is the current value. */
  ghost predicate Fresh(s: State) {
    s.threads == map[] && s.peak == s.current
  }

  ghost predicate Follows(s: State, s': State) {
    exists t, step :: Next(s, t, step, s')
  }

  ghost predicate IsRun(run: seq<State>) {
    && run != [] && Fresh(run[0])
    && forall i, j :: 0 <= i && j == i + 1 && j < |run| ==> Follows(run[i], run[j])
  }

  lemma RunPrefix(run: seq<State>)
    requires IsRun(run) && |run| > 1
    ensures IsRun(run[..|run| - 1]) && Follows(run[|run| - 2], run[|run| - 1])
  {
    var before := run[..|run| - 1];
    forall i, j | 0 <= i && j == i + 1 && j < |before|
      ensures Follows(before[i], before[j])
    {
      assert before[i] == run[i] && before[j] == run[j];
    }
  }

  /** The largest value current_bytes has had in the run. */
  ghost function Highest(run: seq<State>): int
    requires run != []
  {
    var last := run[|run| - 1].current;
    if |run| == 1 then last
    else
      var before := Highest(run[..|run| - 1]);
      if last > before then last else before
  }

  lemma {:induction false} HighestIsMaximum(run: seq<State>)
    requires run != []
    ensures forall i :: 0 <= i < |run| ==> run[i].current <= Highest(run)
    ensures exists i :: 0 <= i < |run| && run[i].current == Highest(run)
  {
    var n := |run| - 1;
    if n == 0 {
      assert run[0].current == Highest(run);
    } else {
      var before := run[..n];
      HighestIsMaximum(before);
      forall i | 0 <= i < |run|
        ensures run[i].current <= Highest(run)
      {
        assert i < n ==> before[i] == run[i];
      }
      var j :| 0 <= j < n && before[j].current == Highest(before);
      assert run[j] == before[j];
      assert run[if Highest(run) == run[n].current then n else j].current == Highest(run);
    }
  }

  /** The thread is in recordAlloc. */
  predicate InAlloc(p: Phase) {
    p.Added? || p.Accumulated? || p.Counted? || p.Comparing?
  }

  ghost predicate NoAllocInFlight(s: State) {
    forall t <- s.threads :: !InAlloc(s.threads[t])
  }

  /** The peak is the highest value, or a thread is still on its way to raise it that far. */
  ghost predicate Invariant(s: State, highest: int) {
    && s.current <= highest && s.peak <= highest
    && (forall t <- s.threads :: InAlloc(s.threads[t]) ==> s.threads[t].cur <= highest)
    && (forall t <- s.threads :: s.threads[t].Comparing? ==> s.threads[t].prev <= s.peak)
    && (s.peak == highest || exists t :: t in s.threads && InAlloc(s.threads[t]) && s.threads[t].cur == highest)
  }

  lemma StepKeepsInvariant(s: State, highest: int, t: nat, step: Step, s': State)
    requires Invariant(s, highest) && Next(s, t, step, s')
    ensures Invariant(s', if s'.current > highest then s'.current else highest)
  {
    var highest' := if s'.current > highest then s'.current else highest;
    if s'.peak != highest' {
      if s'.current > highest {
        assert t in s'.threads && s'.threads[t].cur == highest';
      } else {
        var u :| u in s.threads && InAlloc(s.threads[u]) && s.threads[u].cur == highest;
        assert u in s'.threads && InAlloc(s'.threads[u]) && s'.threads[u].cur == highest;
      }
    }
  }

  lemma {:induction false} RunKeepsInvariant(run: seq<State>)
    requires IsRun(run)
    ensures Invariant(run[|run| - 1], Highest(run))
  {
    var n := |run| - 1;
    if n > 0 {
      var before := run[..n];
      RunPrefix(run);
      RunKeepsInvariant(before);
      var t, step :| Next(run[n - 1], t, step, run[n]);
      StepKeepsInvariant(run[n - 1], Highest(before), t, step, run[n]);
    }
  }

  /** Whenever no recordAlloc is in flight, peak_bytes is exactly the largest value current_bytes
      has had since the peak was last reset. */
  lemma PeakIsExact(run: seq<State>)
    requires IsRun(run) && NoAllocInFlight(run[|run| - 1])
    ensures forall i :: 0 <= i < |run| ==> run[i].current <= run[|run| - 1].peak
    ensures exists i :: 0 <= i < |run| && run[i].current == run[|run| - 1].peak
  {
    RunKeepsInvariant(run);
    HighestIsMaximum(run);
  }

  // ---- the byte counters agree ------------------------------------------------------------------

  /** Bytes a thread has added to current_bytes but not yet to accumulated_alloc. */
  ghost function Adding(threads: map<nat, Phase>): map<nat, nat> {
    map t | t in threads && threads[t].Added? :: threads[t].n
  }

  /** Bytes a thread has taken off current_bytes but not yet added to accumulated_freed. */
  ghost function Freeing(threads: map<nat, Phase>): map<nat, nat> {
    map t | t in threads && threads[t].Subtracted? :: threads[t].n
  }

  /** current_bytes plus what is being freed, less what is being added, moves in step with
      accumulated_alloc less accumulated_freed. */
  ghost function Drift(s: State): int {
    s.current - Sum(Adding(s.threads)) + Sum(Freeing(s.threads)) - s.accumulated_alloc + s.accumulated_freed
  }

  lemma AddingMoves(threads: map<nat, Phase>, t: nat, p: Phase)
    ensures Sum(Adding(threads[t := p])) == Sum(Adding(threads)) + (if p.Added? then p.n else 0)
                                            - if t in threads && threads[t].Added? then threads[t].n else 0
  {
    var rest := Adding(threads) - {t};
    if t in Adding(threads) {
      SumRemove(Adding(threads), t);
    } else {
      assert rest == Adding(threads);
    }
    if p.Added? {
      assert Adding(threads[t := p]) == rest[t := p.n];
      SumInsert(rest, t, p.n);
    } else {
      assert Adding(threads[t := p]) == rest;
    }
  }

  lemma FreeingMoves(threads: map<nat, Phase>, t: nat, p: Phase)
    ensures Sum(Freeing(threads[t := p])) == Sum(Freeing(threads)) + (if p.Subtracted? then p.n else 0)
                                             - if t in threads && threads[t].Subtracted? then threads[t].n else 0
  {
    var rest := Freeing(threads) - {t};
    if t in Freeing(threads) {
      SumRemove(Freeing(threads), t);
    } else {
      assert rest == Freeing(threads);
    }
    if p.Subtracted? {
      assert Freeing(threads[t := p]) == rest[t := p.n];
      SumInsert(rest, t, p.n);
    } else {
      assert Freeing(threads[t := p]) == rest;
    }
  }

  lemma StepKeepsDrift(s: State, t: nat, step: Step, s': State)
    requires Next(s, t, step, s')
    ensures Drift(s') == Drift(s)
  {
    AddingMoves(s.threads, t, s'.threads[t]);
    FreeingMoves(s.threads, t, s'.threads[t]);
  }

  ghost predicate Quiet(s: State) {
    forall t <- s.threads :: s.threads[t].Outside?
  }

  /** With nobody inside, what current_bytes has gained since the start of a run is exactly what
      was recorded as allocated less what was recorded as freed. */
  lemma {:induction false} CountersAgree(run: seq<State>)
    requires IsRun(run)
    ensures Drift(run[|run| - 1]) == Drift(run[0])
    ensures Quiet(run[|run| - 1]) ==>
              run[|run| - 1].current - run[0].current
              == run[|run| - 1].accumulated_alloc - run[0].accumulated_alloc
                 - (run[|run| - 1].accumulated_freed - run[0].accumulated_freed)
  {
    var n := |run| - 1;
    assert Adding(run[0].threads) == map[] && Freeing(run[0].threads) == map[];
    if n > 0 {
      RunPrefix(run);
      CountersAgree(run[..n]);
      assert Follows(run[n - 1], run[n]);
      var t, step :| Next(run[n - 1], t, step, run[n]);
      StepKeepsDrift(run[n - 1], t, step, run[n]);
    }
    if Quiet(run[n]) {
      assert Adding(run[n].threads) == map[] && Freeing(run[n].threads) == map[];
    }
  }
}

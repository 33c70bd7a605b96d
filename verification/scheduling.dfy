/**
 The three non-preemptive calculators (first-come-first-served,
 shortest-job-first, priority): each sorts the list by its key and then runs the
 shared clock loop; the integer totals of the results are then reported.
 */
module Scheduling {
  import opened Processes
  import opened Sorting
  import opened Clock

  /** A calculator: sort by k, then run the clock loop from 0. The result holds
      the input's processes, each with only its two computed figures changed,
      sorted by k, with equal-keyed processes in input order, timed by the
      loop's rule, and with no negative wait. */
  function Schedule(k: SortKey, ps: seq<Process>): (r: seq<Process>)
    ensures |r| == |ps|
    ensures multiset(Resets(r)) == multiset(Resets(ps))
    ensures SortedBy(k, r)
    ensures forall v :: Resets(KeyClass(k, r, v)) == Resets(KeyClass(k, ps, v))
    ensures Timed(0, r)
    ensures forall i :: 0 <= i < |r| ==> r[i].waitingTime >= 0
  {
    var sorted := SortBy(k, ps);
    var r := Accumulate(sorted);
    SortByResets(k, ps);
    SameInputsSorted(k, sorted, r);
    SameInputsKeyClass(k, sorted, r);
    r
  }

  /** The processor idles before a process only when no process served at or
      after that point arrives before it: none has arrived when the idling
      starts, and none arrives while it lasts. */
  ghost predicate NoIdleWhileReady(clock: int, out: seq<Process>)
  {
    forall i, j :: 0 <= i <= j < |out| && ClockAt(clock, out, i) < out[i].arrivalTime ==>
      out[i].arrivalTime <= out[j].arrivalTime
  }

  /** First-come-first-served: processes run in arrival order (ties in input
      order), and the processor never idles while an arrived process waits. */
  function Fcfs(ps: seq<Process>): (r: seq<Process>)
    ensures multiset(Resets(r)) == multiset(Resets(ps))
    ensures SortedBy(ByArrival, r)
    ensures forall v :: Resets(KeyClass(ByArrival, r, v)) == Resets(KeyClass(ByArrival, ps, v))
    ensures Timed(0, r)
    ensures NoIdleWhileReady(0, r)
  {
    var r := Schedule(ByArrival, ps);
    assert NoIdleWhileReady(0, r) by {
      forall i, j | 0 <= i <= j < |r| && ClockAt(0, r, i) < r[i].arrivalTime
        ensures r[i].arrivalTime <= r[j].arrivalTime
      {
        if i < j {
          assert Key(ByArrival, r[i]) <= Key(ByArrival, r[j]);
        }
      }
    }
    r
  }

  /** Shortest-job-first: processes run in burst order (ties in input order),
      whatever their arrival times. */
  function Sjf(ps: seq<Process>): (r: seq<Process>)
    ensures multiset(Resets(r)) == multiset(Resets(ps))
    ensures SortedBy(ByBurst, r)
    ensures forall v :: Resets(KeyClass(ByBurst, r, v)) == Resets(KeyClass(ByBurst, ps, v))
    ensures Timed(0, r)
  {
    Schedule(ByBurst, ps)
  }

  /** Priority scheduling: processes run in priority order, a lower value
      first (ties in input order), whatever their arrival times. */
  function PriorityScheduling(ps: seq<Process>): (r: seq<Process>)
    ensures multiset(Resets(r)) == multiset(Resets(ps))
    ensures SortedBy(ByPriority, r)
    ensures forall v :: Resets(KeyClass(ByPriority, r, v)) == Resets(KeyClass(ByPriority, ps, v))
    ensures Timed(0, r)
  {
    Schedule(ByPriority, ps)
  }

  /** With non-negative bursts in the input, no two executions of a
      calculator's result overlap and none starts before time 0. */
  lemma ScheduleNoOverlap(k: SortKey, ps: seq<Process>)
    requires forall n :: 0 <= n < |ps| ==> ps[n].burstTime >= 0
    ensures var r := Schedule(k, ps);
      && (forall i :: 0 <= i < |r| ==> Start(r[i]) >= 0)
      && (forall i, j :: 0 <= i < j < |r| ==> Finish(r[i]) <= Start(r[j]))
  {
    var r := Schedule(k, ps);
    forall n | 0 <= n < |r|
      ensures r[n].burstTime >= 0
    {
      assert Resets(r)[n] in multiset(Resets(ps));
      var m :| 0 <= m < |ps| && Resets(ps)[m] == Resets(r)[n];
      assert ps[m].burstTime >= 0;
    }
    NoOverlap(0, r);
  }

  /** The integer totals the report is built from: the sums of waiting and of
      turnaround times over the list. */
  method DisplayTotals(ps: seq<Process>) returns (totalWT: int, totalTAT: int)
    ensures totalWT == Total(Waiting, ps)
    ensures totalTAT == Total(Turnaround, ps)
  {
    totalWT, totalTAT := 0, 0;
    for i := 0 to |ps|
      invariant totalWT == Total(Waiting, ps[..i])
      invariant totalTAT == Total(Turnaround, ps[..i])
    {
      var p := ps[i];
      assert ps[..i + 1] == ps[..i] + [p];
      TotalConcat(Waiting, ps[..i], [p]);
      TotalConcat(Turnaround, ps[..i], [p]);
      totalWT := totalWT + p.waitingTime;
      totalTAT := totalTAT + p.turnaroundTime;
    }
    assert ps[..|ps|] == ps;
  }

  /** One calculator run end to end, as `fcfsScheduling` and its siblings do
      it: sort in place, run the clock loop, total the figures. The total
      turnaround is the total wait plus the total burst of the input, and the
      total wait is never negative. */
  method RunAlgorithm(k: SortKey, ps: seq<Process>) returns (out: seq<Process>, totalWT: int, totalTAT: int)
    ensures out == Schedule(k, ps)
    ensures totalWT == Total(Waiting, out)
    ensures totalTAT == Total(Turnaround, out)
    ensures totalWT >= 0
    ensures totalTAT == totalWT + Total(Burst, ps)
  {
    var sorted := SortBy(k, ps);
    var time;
    out, time := AccumulateLoop(sorted);
    totalWT, totalTAT := DisplayTotals(out);
    forall i | 0 <= i < |out|
      ensures out[i].turnaroundTime == out[i].waitingTime + out[i].burstTime
      ensures Get(Waiting, out[i]) >= 0
      ensures Get(Burst, out[i]) == Get(Burst, sorted[i])
    {
      assert TimedAt(0, out, i);
      assert Resets(out)[i] == Resets(sorted)[i];
    }
    TotalTurnaroundIdentity(out);
    TotalNonNegative(Waiting, out);
    TotalPointwise(Burst, out, sorted);
    TotalSortBy(Burst, k, ps);
  }

  /** Shortest-job-first ignores arrival: when a shorter job b arrives after
      time 0 and a longer job a has been waiting since 0, b runs first, the
      processor idles until b arrives, and a then waits for all of that. */
  lemma SjfRunsLateArrivalFirst(a: Process, b: Process)
    requires 0 <= b.burstTime < a.burstTime
    requires a.arrivalTime <= 0 < b.arrivalTime
    ensures var r := Sjf([a, b]);
      && r[0] == b.(waitingTime := 0, turnaroundTime := b.burstTime)
      && r[1].pid == a.pid
      && r[1].waitingTime == b.arrivalTime + b.burstTime - a.arrivalTime
      && !NoIdleWhileReady(0, r)
  {
    RunTwo(b, a);
    ScheduleTwo(ByBurst, a, b);
    var r := Sjf([a, b]);
    assert r == [Serve(0, b), Serve(Finish(Serve(0, b)), a)];
    IdlesWhileReady(0, r, 0, 1);
  }

  /** The no-idle rule fails when the processor idles before position i
      while a process served at or after i arrives earlier than the one at i. */
  lemma IdlesWhileReady(clock: int, out: seq<Process>, i: nat, j: nat)
    requires i <= j < |out|
    requires ClockAt(clock, out, i) < out[i].arrivalTime
    requires out[j].arrivalTime < out[i].arrivalTime
    ensures !NoIdleWhileReady(clock, out)
  {
  }

  /** First-come-first-served keeps input order among processes that arrive
      together: the second waits for the first's whole burst. */
  lemma FcfsKeepsTiesInInputOrder(a: Process, b: Process)
    requires a.arrivalTime == b.arrivalTime
    requires a.burstTime >= 0
    ensures var r := Fcfs([a, b]);
      && r[0].pid == a.pid && r[1].pid == b.pid
      && r[1].waitingTime == r[0].waitingTime + a.burstTime
  {
    RunTwo(a, b);
    ScheduleTwo(ByArrival, a, b);
  }

  /** Sorting two processes: the second goes first only when its key is
      strictly smaller. */
  lemma SortTwo(k: SortKey, a: Process, b: Process)
    ensures SortBy(k, [a, b]) == if Key(k, b) < Key(k, a) then [b, a] else [a, b]
  {
    assert [a, b][1..] == [b];
    assert SortBy(k, [b]) == [b];
  }

  /** A calculator over two processes runs the clock loop on them in sorted
      order. */
  lemma ScheduleTwo(k: SortKey, a: Process, b: Process)
    ensures Schedule(k, [a, b]) == if Key(k, b) < Key(k, a) then Accumulate([b, a]) else Accumulate([a, b])
  {
    SortTwo(k, a, b);
  }

  /** The clock loop over two processes: the second starts when the first
      finishes, or at its own arrival if that is later. */
  lemma RunTwo(a: Process, b: Process)
    ensures var qa := Serve(0, a);
      Accumulate([a, b]) == [qa, Serve(Finish(qa), b)]
  {
    var qa := Serve(0, a);
    assert [a, b][1..] == [b];
    assert Run(Finish(qa), [b]) == [Serve(Finish(qa), b)];
  }
}

/**
 The clock loop all three calculators share: walking the sorted list, the clock
 is raised to a process's arrival when it lags behind it, the process's waiting
 and turnaround times are written, and the clock advances by its burst.
 */
module Clock {
  import opened Processes

  function Max(a: int, b: int): int
  {
    if a < b then b else a
  }

  /** The moment a scheduled process starts to run: arrival plus wait. */
  function Start(p: Process): int
  {
    p.arrivalTime + p.waitingTime
  }

  /** The moment a scheduled process stops running: start plus burst. */
  function Finish(p: Process): int
  {
    Start(p) + p.burstTime
  }

  /** The clock as the loop, begun at `clock`, reaches position i of a
      schedule: the initial clock for the first process, the finish of the
      one before for every other, and the final clock when i is |out|. */
  function ClockAt(clock: int, out: seq<Process>, i: nat): int
    requires i <= |out|
  {
    if i == 0 then clock else Finish(out[i - 1])
  }

  /** The declarative reading of the loop: every process starts at the later
      of the clock and its arrival, and its turnaround is its wait plus its
      burst. */
  ghost predicate Timed(clock: int, out: seq<Process>)
  {
    forall i :: 0 <= i < |out| ==> TimedAt(clock, out, i)
  }

  /** The declarative reading at one position of a schedule. */
  ghost predicate TimedAt(clock: int, out: seq<Process>, i: nat)
    requires i < |out|
  {
    && Start(out[i]) == Max(ClockAt(clock, out, i), out[i].arrivalTime)
    && out[i].turnaroundTime == out[i].waitingTime + out[i].burstTime
  }

  /** The clock after waiting, if need be, for p to arrive. */
  function Raise(clock: int, p: Process): (t: int)
    ensures t >= clock && t >= p.arrivalTime
    ensures t == clock || t == p.arrivalTime
  {
    if clock < p.arrivalTime then p.arrivalTime else clock
  }

  /** One pass of the loop body: p with its waiting and turnaround times set
      for the clock value `clock`. Only those two figures change; the process
      starts once the clock has been raised to its arrival, and its turnaround
      is its wait plus its burst. */
  function Serve(clock: int, p: Process): (q: Process)
    ensures Reset(q) == Reset(p)
    ensures q.arrivalTime + q.waitingTime == Raise(clock, p)
    ensures q.turnaroundTime == q.waitingTime + q.burstTime
  {
    var waiting := Raise(clock, p) - p.arrivalTime;
    p.(waitingTime := waiting, turnaroundTime := waiting + p.burstTime)
  }

  /** The processes of ps, in order, as the loop leaves them when it starts
      with the clock at `clock`. */
  function Run(clock: int, ps: seq<Process>): (r: seq<Process>)
    ensures |r| == |ps|
    ensures Resets(r) == Resets(ps)
    ensures Timed(clock, r)
    decreases |ps|
  {
    if ps == [] then []
    else
      var time := Raise(clock, ps[0]);
      var q := Serve(clock, ps[0]);
      var rest := Run(time + ps[0].burstTime, ps[1..]);
      var r := [q] + rest;
      assert r[1..] == rest;
      assert Timed(clock, r) by {
        forall i | 0 <= i < |r|
          ensures TimedAt(clock, r, i)
        {
          if i > 0 {
            assert r[i] == rest[i - 1];
            assert TimedAt(time + ps[0].burstTime, rest, i - 1);
            if i > 1 {
              assert r[i - 1] == rest[i - 2];
            }
          }
        }
      }
      r
  }

  /** The clock's value when the loop, started at `clock`, has gone through ps. */
  function FinalClock(clock: int, ps: seq<Process>): int
    decreases |ps|
  {
    if ps == [] then clock
    else FinalClock(Raise(clock, ps[0]) + ps[0].burstTime, ps[1..])
  }

  /** The loop of the three calculators, with the clock starting at 0. Every
      waiting time is non-negative because the clock is raised to the arrival
      before the subtraction, and nothing starts before time 0. */
  function Accumulate(ps: seq<Process>): (r: seq<Process>)
    ensures |r| == |ps|
    ensures Resets(r) == Resets(ps)
    ensures Timed(0, r)
    ensures forall i :: 0 <= i < |r| ==> r[i].waitingTime >= 0
  {
    var r := Run(0, ps);
    assert forall i :: 0 <= i < |r| ==> r[i].waitingTime >= 0 by {
      forall i | 0 <= i < |r|
        ensures r[i].waitingTime >= 0
      {
        assert TimedAt(0, r, i);
      }
    }
    r
  }

  /** Records that agree on their inputs and on their start are equal. */
  lemma SameStartSameRecord(a: Process, b: Process)
    requires Reset(a) == Reset(b)
    requires Start(a) == Start(b)
    requires a.turnaroundTime == a.waitingTime + a.burstTime
    requires b.turnaroundTime == b.waitingTime + b.burstTime
    ensures a == b
  {
  }

  /** Two timed schedules over the same inputs agree on their first n records. */
  lemma {:induction false} TimedPrefixUnique(clock: int, a: seq<Process>, b: seq<Process>, n: nat)
    requires |a| == |b| && n <= |a|
    requires Resets(a) == Resets(b)
    requires Timed(clock, a) && Timed(clock, b)
    ensures a[..n] == b[..n]
  {
    if n > 0 {
      TimedPrefixUnique(clock, a, b, n - 1);
      var i := n - 1;
      assert ClockAt(clock, a, i) == ClockAt(clock, b, i) by {
        if i > 0 {
          assert a[i - 1] == a[..n - 1][i - 1];
          assert b[i - 1] == b[..n - 1][i - 1];
        }
      }
      assert Resets(a)[i] == Resets(b)[i];
      assert a[i].arrivalTime == b[i].arrivalTime;
      assert TimedAt(clock, a, i) && TimedAt(clock, b, i);
      SameStartSameRecord(a[i], b[i]);
      assert a[..n] == a[..n - 1] + [a[i]];
      assert b[..n] == b[..n - 1] + [b[i]];
    }
  }

  /** A timed schedule is determined by its inputs and initial clock. */
  lemma TimedUnique(clock: int, a: seq<Process>, b: seq<Process>)
    requires |a| == |b|
    requires Resets(a) == Resets(b)
    requires Timed(clock, a) && Timed(clock, b)
    ensures a == b
  {
    TimedPrefixUnique(clock, a, b, |a|);
    assert a == a[..|a|] && b == b[..|b|];
  }

  /** `Accumulate` is the one schedule of ps's inputs that is timed from 0: the
      loop's result is fixed by the declarative reading alone. */
  lemma AccumulateCharacterised(ps: seq<Process>, out: seq<Process>)
    requires |out| == |ps|
    requires Resets(out) == Resets(ps)
    ensures Timed(0, out) <==> out == Accumulate(ps)
  {
    if Timed(0, out) {
      TimedUnique(0, out, Accumulate(ps));
    }
  }

  /** The final clock is the finish of the last process (the starting clock
      when there is none). */
  lemma {:induction false} FinalClockIsLastFinish(clock: int, ps: seq<Process>)
    ensures FinalClock(clock, ps) == ClockAt(clock, Run(clock, ps), |ps|)
    decreases |ps|
  {
    if ps != [] {
      var time := Raise(clock, ps[0]) + ps[0].burstTime;
      FinalClockIsLastFinish(time, ps[1..]);
      var r := Run(clock, ps);
      var rest := Run(time, ps[1..]);
      assert r == [Serve(clock, ps[0])] + rest;
      if |ps| > 1 {
        assert r[|ps| - 1] == rest[|ps| - 2];
      }
    }
  }

  /** However long the clock idles, it moves forward by at least the sum of all
      bursts. */
  lemma {:induction false} FinalClockCoversBursts(clock: int, ps: seq<Process>)
    ensures FinalClock(clock, ps) >= clock + Total(Burst, ps)
    decreases |ps|
  {
    if ps != [] {
      FinalClockCoversBursts(Raise(clock, ps[0]) + ps[0].burstTime, ps[1..]);
    }
  }

  /** With non-negative bursts the clock never goes back: between positions
      i <= j of a timed schedule it can only have advanced. */
  lemma {:induction false} ClockMonotone(clock: int, out: seq<Process>, i: nat, j: nat)
    requires Timed(clock, out)
    requires forall n :: 0 <= n < |out| ==> out[n].burstTime >= 0
    requires i <= j <= |out|
    ensures ClockAt(clock, out, i) <= ClockAt(clock, out, j)
    decreases j - i
  {
    if i < j {
      ClockMonotone(clock, out, i + 1, j);
      assert TimedAt(clock, out, i);
      assert out[i].burstTime >= 0;
    }
  }

  /** With non-negative bursts no two executions overlap: every process
      finishes no later than any later process starts, and the first starts no
      earlier than the initial clock. */
  lemma NoOverlap(clock: int, out: seq<Process>)
    requires Timed(clock, out)
    requires forall n :: 0 <= n < |out| ==> out[n].burstTime >= 0
    ensures forall i :: 0 <= i < |out| ==> Start(out[i]) >= clock
    ensures forall i, j :: 0 <= i < j < |out| ==> Finish(out[i]) <= Start(out[j])
  {
    forall i | 0 <= i < |out|
      ensures Start(out[i]) >= clock
    {
      ClockMonotone(clock, out, 0, i);
      assert TimedAt(clock, out, i);
    }
    forall i, j | 0 <= i < j < |out|
      ensures Finish(out[i]) <= Start(out[j])
    {
      ClockMonotone(clock, out, i + 1, j);
      assert TimedAt(clock, out, j);
    }
  }

  /** Unfolding the loop by one process. */
  lemma RunStep(clock: int, ps: seq<Process>)
    requires ps != []
    ensures Run(clock, ps) == [Serve(clock, ps[0])] + Run(Raise(clock, ps[0]) + ps[0].burstTime, ps[1..])
    ensures FinalClock(clock, ps) == FinalClock(Raise(clock, ps[0]) + ps[0].burstTime, ps[1..])
  {
  }

  /** Serving position i of ps, which yields the record q and moves the clock
      to `next`, carries the loop's invariant to position i + 1. */
  lemma LoopStep(ps: seq<Process>, i: nat, out: seq<Process>, clock: int, q: Process, next: int)
    requires i < |ps|
    requires out + Run(clock, ps[i..]) == Run(0, ps)
    requires FinalClock(clock, ps[i..]) == FinalClock(0, ps)
    requires q == Serve(clock, ps[i])
    requires next == Raise(clock, ps[i]) + ps[i].burstTime
    ensures (out + [q]) + Run(next, ps[i + 1..]) == Run(0, ps)
    ensures FinalClock(next, ps[i + 1..]) == FinalClock(0, ps)
  {
    var s := ps[i..];
    assert s[0] == ps[i] && s[1..] == ps[i + 1..];
    RunStep(clock, s);
    var tail := Run(next, ps[i + 1..]);
    assert Run(clock, s) == [q] + tail;
  }

  /** The loop as written: one pass over the list with a mutable clock. */
  method AccumulateLoop(ps: seq<Process>) returns (out: seq<Process>, time: int)
    ensures out == Accumulate(ps)
    ensures time == ClockAt(0, out, |out|)
    ensures time >= Total(Burst, ps)
  {
    out := [];
    time := 0;
    var i := 0;
    while i < |ps|
      invariant 0 <= i <= |ps|
      invariant out + Run(time, ps[i..]) == Run(0, ps)
      invariant FinalClock(time, ps[i..]) == FinalClock(0, ps)
    {
      var p := ps[i];
      ghost var before := time;
      if time < p.arrivalTime {
        time := p.arrivalTime;
      }
      var waiting := time - p.arrivalTime;
      var q := p.(waitingTime := waiting, turnaroundTime := waiting + p.burstTime);
      time := time + p.burstTime;
      LoopStep(ps, i, out, before, q, time);
      out := out + [q];
      i := i + 1;
    }
    assert ps[i..] == [];
    assert out == Run(0, ps);
    assert time == FinalClock(0, ps);
    FinalClockIsLastFinish(0, ps);
    FinalClockCoversBursts(0, ps);
  }
}

/**
 The process record shared by the three non-preemptive scheduling calculators,
 and the integer totals reported over a list of processes.
 */
module Processes {

  /** One process: the four figures read from the input (identifier, arrival
      time, CPU burst, priority) and the two figures a scheduling pass computes
      for it. The record's Java `int` fields are modelled as unbounded `int`. */
  datatype Process = Process(
    pid: int,
    arrivalTime: int,
    burstTime: int,
    priority: int,
    waitingTime: int,
    turnaroundTime: int)

  /** The record as its constructor builds it: the four inputs as given, both
      computed figures zero. */
  function NewProcess(pid: int, arrivalTime: int, burstTime: int, priority: int): (p: Process)
    ensures p.pid == pid && p.arrivalTime == arrivalTime
    ensures p.burstTime == burstTime && p.priority == priority
    ensures p.waitingTime == 0 && p.turnaroundTime == 0
  {
    Process(pid, arrivalTime, burstTime, priority, 0, 0)
  }

  /** The record the constructor would build from p's own inputs. Two records
      have the same `Reset` exactly when they agree on pid, arrival, burst and
      priority, that is, on everything a scheduling pass does not write. */
  function Reset(p: Process): Process
  {
    NewProcess(p.pid, p.arrivalTime, p.burstTime, p.priority)
  }

  /** `Reset` applied to every element. */
  function Resets(s: seq<Process>): (r: seq<Process>)
    ensures |r| == |s|
    ensures forall i {:trigger r[i]} :: 0 <= i < |s| ==> r[i] == Reset(s[i])
  {
    if s == [] then [] else [Reset(s[0])] + Resets(s[1..])
  }

  /** The per-process figures that get summed. */
  datatype Metric = Waiting | Turnaround | Burst

  function Get(m: Metric, p: Process): int
  {
    match m
    case Waiting => p.waitingTime
    case Turnaround => p.turnaroundTime
    case Burst => p.burstTime
  }

  /** The sum of one figure over a list of processes. */
  function Total(m: Metric, s: seq<Process>): int
  {
    if s == [] then 0 else Get(m, s[0]) + Total(m, s[1..])
  }

  lemma {:induction false} TotalConcat(m: Metric, a: seq<Process>, b: seq<Process>)
    ensures Total(m, a + b) == Total(m, a) + Total(m, b)
  {
    if a == [] {
      assert a + b == b;
    } else {
      assert (a + b)[1..] == a[1..] + b;
      TotalConcat(m, a[1..], b);
    }
  }

  /** Lists that agree on one figure position by position have the same total. */
  lemma {:induction false} TotalPointwise(m: Metric, a: seq<Process>, b: seq<Process>)
    requires |a| == |b|
    requires forall i :: 0 <= i < |a| ==> Get(m, a[i]) == Get(m, b[i])
    ensures Total(m, a) == Total(m, b)
  {
    if a != [] {
      assert Get(m, a[0]) == Get(m, b[0]);
      TotalPointwise(m, a[1..], b[1..]);
    }
  }

  /** When every turnaround is its wait plus its burst, the total turnaround is
      the total wait plus the total burst. */
  lemma {:induction false} TotalTurnaroundIdentity(s: seq<Process>)
    requires forall i :: 0 <= i < |s| ==> s[i].turnaroundTime == s[i].waitingTime + s[i].burstTime
    ensures Total(Turnaround, s) == Total(Waiting, s) + Total(Burst, s)
  {
    if s != [] {
      assert s[0].turnaroundTime == s[0].waitingTime + s[0].burstTime;
      TotalTurnaroundIdentity(s[1..]);
    }
  }

  /** A figure that is never negative has a non-negative total. */
  lemma {:induction false} TotalNonNegative(m: Metric, s: seq<Process>)
    requires forall i :: 0 <= i < |s| ==> Get(m, s[i]) >= 0
    ensures Total(m, s) >= 0
  {
    if s != [] {
      assert Get(m, s[0]) >= 0;
      TotalNonNegative(m, s[1..]);
    }
  }
}

# Non-preemptive CPU-scheduling calculators, modelled in Dafny

The program reads a list of processes (identifier, arrival time, CPU burst,
priority) and computes, for one of three non-preemptive policies, each
process's waiting time and turnaround time. It then prints each process's two
figures and the average waiting and turnaround times, which it computes from
their integer totals. The three policies differ only in the key the list is sorted by:

- first-come-first-served (FCFS) sorts by arrival time,
- shortest-job-first (SJF) sorts by burst time,
- priority scheduling sorts by priority, a lower value first.

All three then run the same clock loop. The clock starts at 0. For each
process in sorted order, the clock is raised to the arrival time if it lags
behind it. The waiting time becomes `clock - arrival` and the turnaround time
becomes `waiting + burst`. The clock then advances by the burst.

The model is functional. `Processes.Process` is the record, and the sort is a
stable insertion sort (`Sorting.SortBy`) parameterised by a `SortKey`. The
clock loop appears twice: as a clock-passing recursion (`Clock.Run`,
`Clock.Accumulate`) and as the loop itself (`Clock.AccumulateLoop`), which is
proved equal to the recursion. Each calculator is `Scheduling.Schedule(key, ps)`,
which is `Accumulate(SortBy(key, ps))`.

The properties are stated against independent definitions:

- **Stability.** `Sorting.KeyClass` is the subsequence of one key value, and a
  sort is stable when it leaves every such subsequence unchanged. A list that is
  sorted and stable in this sense is unique (`Sorting.StableSortUnique`). So
  Java's stable `List.sort` produces exactly `SortBy`'s result, whatever
  algorithm it uses internally.
- **Timing.** `Clock.Timed` is a declarative reading of the loop: each process
  starts at the later of the previous finish (0 for the first process) and its
  arrival, and its turnaround is its wait plus its burst. The loop's result is
  the one schedule that satisfies it (`Clock.AccumulateCharacterised`).
- **Inputs kept.** `Processes.Reset` forgets the two computed figures. "Nothing
  else changes" is stated as `Resets(out) == Resets(in)`.

SJF and priority scheduling sort on their key alone and ignore arrival, as the
code does. A process that arrives later can therefore run first, with the
processor idling until it arrives while an earlier arrival waits
(`Scheduling.SjfRunsLateArrivalFirst`). FCFS never idles while an arrived
process waits: when the processor idles before a process, every process served
from there on arrives no earlier than it (`Scheduling.Fcfs`).

## Model

| member | source | states |
|---|---|---|
| `Processes.NewProcess` | ProcessScheduling.java:8-15 | The constructor keeps pid, arrival, burst and priority as given, and sets waiting and turnaround to 0. |
| `Sorting.SortBy` | ProcessScheduling.java:43 | The result is a permutation of the input (equal multisets). It is sorted non-decreasingly by the key. For every key value, the processes with that key appear in the same relative order as in the input (stability). |
| `Sorting.StableSortUnique` | ProcessScheduling.java:43-75 | For the sorts at lines 43, 59 and 75: any arrangement of the input that is sorted by the key and stable equals `SortBy`'s result. So the library's stable sort and the model agree on every input. |
| `Sorting.TotalSortBy` | ProcessScheduling.java:43-75 | For the sorts at lines 43, 59 and 75: sorting by any key leaves the total of every figure (waiting, turnaround, burst) unchanged. |
| `Clock.Raise` | ProcessScheduling.java:47-49 | The raised clock is at least the old clock and at least the arrival, and it equals one of the two: it is their maximum. |
| `Clock.Serve` | ProcessScheduling.java:50-51 | The loop body's two writes change only waiting and turnaround. The process starts at the raised clock, so its wait is the raised clock minus its arrival, and its turnaround is its wait plus its burst. |
| `Clock.Run` | ProcessScheduling.java:45-53 | From any starting clock, the loop returns one record per input, in input order. Each record keeps its pid, arrival, burst and priority. The result satisfies the declarative timing rule `Timed`. |
| `Clock.Accumulate` | ProcessScheduling.java:45-51 | With the clock starting at 0, the records keep their inputs and satisfy `Timed`. Every waiting time is non-negative, so no process starts before it arrives. |
| `Clock.TimedUnique` | ProcessScheduling.java:45-53 | Two schedules of the same inputs that both satisfy the timing rule from the same clock are equal. The rule fixes every waiting and turnaround time. |
| `Clock.AccumulateCharacterised` | ProcessScheduling.java:45-53 | For any records with the input's fields, satisfying `Timed` from 0 holds exactly when the records are the loop's result. |
| `Clock.FinalClockIsLastFinish` | ProcessScheduling.java:52 | The clock's final value is the last process's start plus its burst, or the starting clock when the list is empty. |
| `Clock.FinalClockCoversBursts` | ProcessScheduling.java:45-53 | Whatever idle time is inserted, the final clock is at least the starting clock plus the sum of all bursts. |
| `Clock.ClockMonotone` | ProcessScheduling.java:47-52 | With non-negative bursts, the clock a timed schedule reaches at a later position is never below the clock at an earlier one. |
| `Clock.NoOverlap` | ProcessScheduling.java:45-52 | With non-negative bursts, no process starts before the initial clock. Every process finishes no later than any later process starts, so executions never overlap. |
| `Clock.AccumulateLoop` | ProcessScheduling.java:45-53 | The loop with a mutable clock returns exactly the recursive `Accumulate`. Its final clock is the finish of the last process and at least the sum of all bursts. |
| `Scheduling.Schedule` | ProcessScheduling.java:42-53 | A calculator's result has one record per input, and their inputs form a permutation of the input list. It is sorted by the calculator's key, and equal-keyed processes keep their input order. It satisfies the timing rule from 0, and no waiting time is negative. |
| `Scheduling.Fcfs` | ProcessScheduling.java:42-55 | FCFS returns a permutation of the inputs, sorted by arrival (ties in input order) and timed from 0. The processor idles before a process only when every process served from there on arrives no earlier than it, so none is waiting during the idle time. |
| `Scheduling.Sjf` | ProcessScheduling.java:58-71 | SJF returns a permutation of the inputs, sorted by burst (ties in input order) and timed from 0. |
| `Scheduling.PriorityScheduling` | ProcessScheduling.java:74-87 | Priority scheduling returns a permutation of the inputs, sorted by priority (a lower value first, ties in input order) and timed from 0. |
| `Scheduling.ScheduleNoOverlap` | ProcessScheduling.java:45-52 | When every input burst is non-negative, a calculator's result never starts a process before time 0 and never runs two processes at once. |
| `Scheduling.DisplayTotals` | ProcessScheduling.java:94-99 | The reporting loop's totals are the sum of all waiting times and the sum of all turnaround times. |
| `Scheduling.RunAlgorithm` | ProcessScheduling.java:42-54 | Sorting, looping and totalling together return the calculator's result. The total turnaround equals the total wait plus the input's total burst, and the total wait is non-negative. |
| `Scheduling.SjfRunsLateArrivalFirst` | ProcessScheduling.java:59-69 | SJF sorts on burst alone. Take a job `a` that arrived by time 0 and a shorter job `b` (non-negative burst) that arrives after 0. `b` runs first, starting at its own arrival with wait 0 and turnaround equal to its burst. `a` then waits until `b` finishes, and the processor idles before `b` although `a` is waiting. |
| `Scheduling.FcfsKeepsTiesInInputOrder` | ProcessScheduling.java:43-51 | Two processes with the same arrival run in input order under FCFS. With a non-negative first burst, the second waits exactly the first's burst longer than the first. |
| `Processes.TotalTurnaroundIdentity` | ProcessScheduling.java:94-99 | When every turnaround is the wait plus the burst, the turnaround total equals the waiting total plus the burst total. |

## Left out

- Reading the process file (`readProcesses`, ProcessScheduling.java:21-39) is file I/O. It also relies on Java's regular-expression split and on `Integer.parseInt`, whose exceptions are not caught. The model starts from a list of records.
- The averages in `displayResults` (ProcessScheduling.java:100-101) use floating-point division. They would divide by zero on an empty list, which `main` rules out before calling a calculator (ProcessScheduling.java:107-110). Only the integer totals are modelled.
- The console output of `displayResults` (ProcessScheduling.java:91-92, 96) and the `main` menu (ProcessScheduling.java:104-134) are console I/O.
- Java `int` overflow is not modelled. The record's fields, the clock and the totals are unbounded integers, so the 32-bit wrap-around of a very large clock or sum is not represented.
- The Java methods sort the list in place and update the `Process` objects in place. The model returns a new sequence of new records, which is equivalent for a caller that uses the list afterwards.
- Java's `List.sort` is a merge sort, and the model sorts by insertion. Both are stable, so by `Sorting.StableSortUnique` they give the same result. The library's algorithm itself is not modelled.
- The dining-philosophers and readers-writers simulation and the process threads in `ProcessScheduling (1).java` are thread-based concurrency code. That file is not part of this model.

/** The repeated-run driver: k runs per task under a sticky cancellation token. */
module MultiRun {
  import opened Sequences

  /** The answer and the tools called by one run. */
  datatype Capture = Capture(answer: string, tools: seq<string>)

  /** What the agent loop reports for one run; the loop itself is not part of this model. */
  datatype Outcome = Finished(score: real, iterations: nat, capture: Capture) | Failed

  datatype Task = Task(maxIterations: nat)

  datatype TaskRuns = TaskRuns(scores: seq<real>, iterations: seq<nat>, durations: seq<real>, lastRun: Option<Capture>)

  /** The driver's environment: the outcome and duration of run `r` of task `t` and whether the session reset before it
      succeeds, what the i-th poll of the token observes, and how many times the filler-injection runs of task `t` poll
      it and whether all their resets succeed. */
  datatype World = World(
    outcome: (nat, nat) -> Outcome,
    seconds: (nat, nat) -> real,
    reset: (nat, nat) -> bool,
    cancelled: nat -> bool,
    injectionPolls: nat -> nat,
    injectionResets: nat -> bool)

  /** A token that has been cancelled stays cancelled. */
  ghost predicate Sticky(w: World) {
    forall i: nat, j: nat :: i <= j && w.cancelled(i) ==> w.cancelled(j)
  }

  /** The token was seen cancelled by one of the first `polls` polls. */
  ghost predicate SeenCancelled(w: World, polls: nat) {
    exists i: nat :: i < polls && w.cancelled(i)
  }

  /** What is kept of the last of the first `n` runs that finished. */
  function LastCapture(w: World, t: nat, n: nat): Option<Capture> {
    if n == 0 then None
    else
      match w.outcome(t, n - 1)
      case Finished(_, _, capture) => Some(capture)
      case Failed => LastCapture(w, t, n - 1)
  }

  /** The first `n` runs of a task, each after a successful reset; a failed one scores zero with its whole iteration
      budget spent. */
  ghost predicate FirstRuns(w: World, tasks: seq<Task>, t: nat, runs: TaskRuns, n: nat)
    requires t < |tasks|
  {
    && |runs.scores| == |runs.iterations| == |runs.durations| == n
    && runs.lastRun == LastCapture(w, t, n)
    && forall r: nat :: r < n ==>
         && w.reset(t, r) && runs.durations[r] == w.seconds(t, r)
         && match w.outcome(t, r)
            case Finished(score, iterations, _) => runs.scores[r] == score && runs.iterations[r] == iterations
            case Failed => runs.scores[r] == 0.0 && runs.iterations[r] == tasks[t].maxIterations
  }

  /** Only the last task reported can be short of runs. */
  ghost predicate CutAtMostOnce(w: World, tasks: seq<Task>, k: nat, results: seq<TaskRuns>) {
    && |results| <= |tasks|
    && (forall t :: 0 <= t < |results| ==>
          |results[t].scores| <= k && FirstRuns(w, tasks, t, results[t], |results[t].scores|))
    && (forall t :: 0 <= t < |results| - 1 ==> |results[t].scores| == k)
  }

  ghost predicate Complete(tasks: seq<Task>, k: nat, results: seq<TaskRuns>) {
    |results| == |tasks| && forall t :: 0 <= t < |tasks| ==> |results[t].scores| == k
  }

  ghost predicate ResetFails(w: World, t: nat, k: nat) {
    !w.injectionResets(t) || exists r: nat :: r < k && !w.reset(t, r)
  }

  ghost predicate SomeResetFails(w: World, tasks: seq<Task>, k: nat) {
    exists t: nat :: t < |tasks| && ResetFails(w, t, k)
  }

  /** The runs of one task; a failing reset gives the whole benchmark up. */
  method RunTask(w: World, tasks: seq<Task>, t: nat, k: nat, tick0: nat) returns (runs: Option<TaskRuns>, tick: nat)
    requires t < |tasks|
    ensures tick >= tick0
    ensures runs.None? ==> ResetFails(w, t, k)
    ensures runs.Some? ==> |runs.value.scores| <= k && FirstRuns(w, tasks, t, runs.value, |runs.value.scores|)
    ensures runs.Some? ==> forall i: nat :: tick0 <= i < tick0 + |runs.value.scores| ==> !w.cancelled(i)
    ensures runs.Some? ==>
              if |runs.value.scores| == k then tick == tick0 + k
              else tick == tick0 + |runs.value.scores| + 1 && w.cancelled(tick0 + |runs.value.scores|)
  {
    var scores, iterations, durations := [], [], [];
    var lastRun: Option<Capture> := None;
    tick := tick0;
    var r := 0;
    while r < k
      invariant r <= k && tick == tick0 + r
      invariant forall i: nat :: tick0 <= i < tick0 + r ==> !w.cancelled(i)
      invariant FirstRuns(w, tasks, t, TaskRuns(scores, iterations, durations, lastRun), r)
    {
      tick := tick + 1;
      if w.cancelled(tick - 1) {
        return Some(TaskRuns(scores, iterations, durations, lastRun)), tick;
      }
      if !w.reset(t, r) {
        return None, tick;
      }
      match w.outcome(t, r) {
        case Finished(score, used, capture) =>
          lastRun := Some(capture);
          iterations := iterations + [used];
          durations := durations + [w.seconds(t, r)];
          scores := scores + [score];
        case Failed =>
          iterations := iterations + [tasks[t].maxIterations];
          durations := durations + [w.seconds(t, r)];
          scores := scores + [0.0];
      }
      r := r + 1;
    }
    runs := Some(TaskRuns(scores, iterations, durations, lastRun));
  }

  /** Task `t`, whose first poll is `start`, found the token alive there and before every run recorded, and recorded
      all k unless the next poll saw the token cancelled. */
  ghost predicate RanWhileAlive(w: World, start: nat, k: nat, runs: TaskRuns) {
    && !w.cancelled(start)
    && (forall i: nat :: start < i <= start + |runs.scores| ==> !w.cancelled(i))
    && (|runs.scores| < k ==> w.cancelled(start + 1 + |runs.scores|))
  }

  /** Where the task after one begun at `start` begins to poll. */
  function NextStart(w: World, t: nat, start: nat, k: nat, runs: TaskRuns): nat {
    start + 1 + (if |runs.scores| == k then k else |runs.scores| + 1) + w.injectionPolls(t)
  }

  ghost predicate Schedule(w: World, k: nat, results: seq<TaskRuns>, starts: seq<nat>) {
    && |starts| == |results| + 1 && starts[0] == 0
    && forall t :: 0 <= t < |results| ==>
         && RanWhileAlive(w, starts[t], k, results[t]) && w.injectionResets(t)
         && starts[t + 1] == NextStart(w, t, starts[t], k, results[t])
  }

  lemma ScheduleNext(w: World, k: nat, results: seq<TaskRuns>, starts: seq<nat>, runs: TaskRuns)
    requires Schedule(w, k, results, starts)
    requires RanWhileAlive(w, starts[|results|], k, runs) && w.injectionResets(|results|)
    ensures Schedule(w, k, results + [runs], starts + [NextStart(w, |results|, starts[|results|], k, runs)])
  {
    var all, begun := results + [runs], starts + [NextStart(w, |results|, starts[|results|], k, runs)];
    forall t | 0 <= t < |all|
      ensures RanWhileAlive(w, begun[t], k, all[t]) && w.injectionResets(t)
      ensures begun[t + 1] == NextStart(w, t, begun[t], k, all[t])
    {
      if t < |results| {
        assert begun[t] == starts[t] && begun[t + 1] == starts[t + 1] && all[t] == results[t];
      }
    }
  }

  /** What the loop over the tasks maintains. */
  ghost predicate Progress(w: World, tasks: seq<Task>, k: nat, done: seq<TaskRuns>, starts: seq<nat>, tick: nat) {
    && CutAtMostOnce(w, tasks, k, done) && Schedule(w, k, done, starts) && tick == starts[|done|]
    && (|done| > 0 && |done[|done| - 1].scores| < k ==> SeenCancelled(w, tick))
  }

  lemma ProgressNext(w: World, tasks: seq<Task>, k: nat, done: seq<TaskRuns>, starts: seq<nat>, runs: TaskRuns,
                     before: nat, tick: nat)
    requires Sticky(w) && |done| < |tasks| && Progress(w, tasks, k, done, starts, before)
    requires |runs.scores| <= k && FirstRuns(w, tasks, |done|, runs, |runs.scores|)
    requires RanWhileAlive(w, before, k, runs) && w.injectionResets(|done|)
    requires tick == NextStart(w, |done|, before, k, runs)
    ensures Progress(w, tasks, k, done + [runs], starts + [tick], tick)
  {
    ScheduleNext(w, k, done, starts, runs);
    if |runs.scores| < k {
      assert w.cancelled(before + 1 + |runs.scores|);
    }
  }

  /** The polls of the token decide everything: each task begins with one, each run with one, and the first that sees
      the token cancelled ends the task and, the token being sticky, the call. The call fails only over a failing
      reset. */
  method RunK(w: World, tasks: seq<Task>, k: nat) returns (results: Option<seq<TaskRuns>>, ghost starts: seq<nat>)
    requires Sticky(w)
    ensures results.Some? ==> CutAtMostOnce(w, tasks, k, results.value) && Schedule(w, k, results.value, starts)
    ensures results.Some? && |results.value| < |tasks| ==> w.cancelled(starts[|results.value|])
    ensures results.None? ==> SomeResetFails(w, tasks, k)
  {
    var done: seq<TaskRuns> := [];
    var tick: nat := 0;
    starts := [0];
    for t := 0 to |tasks|
      invariant |done| == t && Progress(w, tasks, k, done, starts, tick)
    {
      tick := tick + 1;
      if w.cancelled(tick - 1) {
        return Some(done), starts;
      }
      var runs;
      runs, tick := RunTask(w, tasks, t, k, tick);
      if runs.None? {
        return None, starts;
      }
      tick := tick + w.injectionPolls(t);
      if !w.injectionResets(t) {
        assert ResetFails(w, t, k);
        return None, starts;
      }
      ProgressNext(w, tasks, k, done, starts, runs.value, starts[t], tick);
      starts := starts + [tick];
      done := done + [runs.value];
    }
    return Some(done), starts;
  }

  /** So nothing is begun or recorded once a poll of this call has seen the token cancelled: every poll up to the one
      before the last run recorded found it alive. */
  lemma {:induction false} AliveUntilTheLastRun(w: World, k: nat, results: seq<TaskRuns>, starts: seq<nat>, t: nat,
                                                i: nat)
    requires Sticky(w) && Schedule(w, k, results, starts) && t < |results| && i <= starts[t] + |results[t].scores|
    ensures !w.cancelled(i)
  {
    assert RanWhileAlive(w, starts[t], k, results[t]);
    assert !w.cancelled(starts[t] + |results[t].scores|);
  }

  /** Without cancellation every task has all its runs. */
  lemma {:induction false} CompleteWhenAlive(w: World, tasks: seq<Task>, k: nat, results: seq<TaskRuns>,
                                             starts: seq<nat>)
    requires CutAtMostOnce(w, tasks, k, results) && Schedule(w, k, results, starts)
    requires |results| < |tasks| ==> w.cancelled(starts[|results|])
    requires forall i: nat :: !w.cancelled(i)
    ensures Complete(tasks, k, results)
  {
    forall t | 0 <= t < |results| ensures |results[t].scores| == k {
      assert RanWhileAlive(w, starts[t], k, results[t]);
    }
  }
}

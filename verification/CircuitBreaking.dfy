/** The per-tool circuit breaker: tools that keep failing are disabled until a cooldown has passed. */
module CircuitBreaking {
  import opened Sequences
  import opened Cooldown

  datatype Event = Failure(tool: string, at: nat) | Success(tool: string)

  /** When the tool failed since its last success, oldest first. */
  function StreakTimes(log: seq<Event>, tool: string): seq<nat> {
    if |log| == 0 then []
    else
      var before, e := StreakTimes(log[..|log| - 1], tool), log[|log| - 1];
      if e.tool != tool then before
      else if e.Success? then []
      else before + [e.at]
  }

  /** Time passed since `earlier`, as a clock that never runs backwards reports it. */
  function Elapsed(now: nat, earlier: nat): nat {
    if now >= earlier then now - earlier else 0
  }

  /** A tool is disabled after enough failures without a success, until the cooldown since the last of them is over. */
  predicate Disabled(log: seq<Event>, tool: string, threshold: nat, cooldown: nat, now: nat) {
    var times := StreakTimes(log, tool);
    |times| > 0 && |times| >= threshold && Elapsed(now, times[|times| - 1]) < cooldown
  }

  class CircuitBreaker {
    var failureCounts: map<string, (nat, nat)>
    const threshold: nat
    const cooldown: nat
    ghost var log: seq<Event>

    ghost predicate Valid()
      reads this
    {
      forall tool ::
        var times := StreakTimes(log, tool);
        && (tool in failureCounts <==> |times| > 0)
        && (|times| > 0 ==> failureCounts[tool] == (|times|, times[|times| - 1]))
    }

    constructor (threshold: nat, cooldown: nat)
      ensures Valid() && log == []
      ensures this.threshold == threshold && this.cooldown == cooldown
    {
      failureCounts, log := map[], [];
      this.threshold, this.cooldown := threshold, cooldown;
    }

    method IsAvailable(tool: string, now: nat) returns (available: bool)
      requires Valid()
      ensures available <==> !Disabled(log, tool, threshold, cooldown, now)
    {
      if tool in failureCounts {
        var (count, lastFailure) := failureCounts[tool];
        if count >= threshold {
          return Elapsed(now, lastFailure) >= cooldown;
        }
      }
      available := true;
    }

    method RecordFailure(tool: string, now: nat)
      requires Valid()
      modifies this
      ensures Valid() && log == old(log) + [Failure(tool, now)]
    {
      forall t ensures StreakTimes(log + [Failure(tool, now)], t)
                    == StreakTimes(log, t) + (if t == tool then [now] else [])
      {
        assert (log + [Failure(tool, now)])[..|log|] == log;
        assert StreakTimes(log, t) + [] == StreakTimes(log, t);
      }
      log := log + [Failure(tool, now)];
      var count := if tool in failureCounts then failureCounts[tool].0 else 0;
      failureCounts := failureCounts[tool := (count + 1, now)];
    }

    method RecordSuccess(tool: string)
      requires Valid()
      modifies this
      ensures Valid() && log == old(log) + [Success(tool)]
    {
      forall t ensures StreakTimes(log + [Success(tool)], t) == if t == tool then [] else StreakTimes(log, t) {
        assert (log + [Success(tool)])[..|log|] == log;
      }
      log := log + [Success(tool)];
      failureCounts := failureCounts - {tool};
    }

    method FailureCount(tool: string) returns (n: nat)
      requires Valid()
      ensures n == |StreakTimes(log, tool)|
    {
      n := if tool in failureCounts then failureCounts[tool].0 else 0;
    }
  }

  // ---- Tools do not affect one another ----

  function Only(log: seq<Event>, tool: string): seq<Event> {
    Filter(log, (e: Event) => e.tool == tool)
  }

  /** A tool's verdict depends on its own events alone. */
  lemma {:induction false} ToolsIndependent(log: seq<Event>, tool: string)
    ensures StreakTimes(Only(log, tool), tool) == StreakTimes(log, tool)
    ensures forall threshold: nat, cooldown: nat, now: nat ::
              Disabled(Only(log, tool), tool, threshold, cooldown, now) == Disabled(log, tool, threshold, cooldown, now)
  {
    if |log| > 0 {
      var front, e := log[..|log| - 1], log[|log| - 1];
      ToolsIndependent(front, tool);
      if e.tool == tool {
        assert (Only(front, tool) + [e])[..|Only(front, tool)|] == Only(front, tool);
      } else {
        assert Only(front, tool) + [] == Only(front, tool);
      }
    }
  }

  // ---- Runs that respect the breaker ----

  /** The failure that trips the breaker; a threshold of zero still takes one. */
  function Trip(threshold: nat): nat {
    if threshold == 0 then 1 else threshold
  }

  ghost predicate ClockForward(log: seq<Event>) {
    forall i, j :: 0 <= i < j < |log| && log[i].Failure? && log[j].Failure? ==> log[i].at <= log[j].at
  }

  /** Every recorded failure of the tool is one the breaker would still have let through. */
  ghost predicate Guarded(log: seq<Event>, tool: string, threshold: nat, cooldown: nat) {
    forall i :: 0 <= i < |log| && log[i].Failure? && log[i].tool == tool ==>
                  !Disabled(log[..i], tool, threshold, cooldown, log[i].at)
  }

  lemma {:induction false} StreakTimesAreEvents(log: seq<Event>, tool: string, t: nat)
    requires t in StreakTimes(log, tool)
    ensures exists i :: 0 <= i < |log| && log[i] == Failure(tool, t)
  {
    var front, e := log[..|log| - 1], log[|log| - 1];
    if t in StreakTimes(front, tool) && (e.tool != tool || e.Failure?) {
      StreakTimesAreEvents(front, tool, t);
      var i :| 0 <= i < |front| && front[i] == Failure(tool, t);
      assert log[i] == Failure(tool, t);
    } else {
      assert log[|log| - 1] == Failure(tool, t);
    }
  }

  /** Past the threshold, consecutive failures of a guarded tool are at least a cooldown apart ... */
  lemma {:induction false} TrippedFailuresAreSpaced(log: seq<Event>, tool: string, threshold: nat, cooldown: nat)
    requires ClockForward(log) && Guarded(log, tool, threshold, cooldown)
    ensures var times := StreakTimes(log, tool);
            |times| >= Trip(threshold) ==> Spaced(times[Trip(threshold) - 1..], cooldown)
  {
    if |log| > 0 {
      var front, e := log[..|log| - 1], log[|log| - 1];
      assert forall i :: 0 <= i < |front| ==> front[..i] == log[..i];
      TrippedFailuresAreSpaced(front, tool, threshold, cooldown);
      var before := StreakTimes(front, tool);
      if e.tool == tool && e.Failure? && |before| >= Trip(threshold) {
        var last := before[|before| - 1];
        StreakTimesAreEvents(front, tool, last);
        assert last <= e.at;
        assert !Disabled(log[..|log| - 1], tool, threshold, cooldown, e.at);
        assert (before + [e.at])[Trip(threshold) - 1..] == before[Trip(threshold) - 1..] + [e.at];
      }
    }
  }

  /** ... so a streak of n failures lasts at least n - threshold cooldowns after the breaker trips. */
  lemma {:induction false} StreakTakesTime(log: seq<Event>, tool: string, threshold: nat, cooldown: nat)
    requires ClockForward(log) && Guarded(log, tool, threshold, cooldown)
    requires |StreakTimes(log, tool)| >= Trip(threshold)
    ensures var times := StreakTimes(log, tool);
            times[Trip(threshold) - 1] + (|times| - Trip(threshold)) * cooldown <= times[|times| - 1]
  {
    TrippedFailuresAreSpaced(log, tool, threshold, cooldown);
    SpacedSpan(StreakTimes(log, tool)[Trip(threshold) - 1..], cooldown);
  }
}

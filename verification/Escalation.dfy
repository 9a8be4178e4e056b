/** Staged recovery: what the agent is told to do after consecutive failures. Message texts are not modelled. */
module Escalation {
  import opened Sequences

  datatype ParseErrorDetail = InvalidJson | MissingField(field: string) | UnexpectedFormat

  datatype ToolErrorDetail =
    | PermissionDenied
    | CommandNotFound
    | Timeout
    | InvalidArguments(message: string)
    | ExitCodeNonZero(code: int)
    | Unknown(message: string)

  datatype FailureMode =
    | ParseError(parse: ParseErrorDetail)
    | ToolExecError(tool: ToolErrorDetail)
    | ReasoningError
    | LoopDetected
    | ContextOverflow
    | RateLimited
    | NetworkError
    | ServerDisconnect

  datatype RecoveryAction =
    | RetryWithFix
    | RetryWithTemperatureDelta
    | SuggestAlternative
    | Abort
    | ExplainAndStop
    | Replan
  {
    predicate Stops() {
      Abort? || ExplainAndStop?
    }

    predicate Retries() {
      RetryWithFix? || RetryWithTemperatureDelta? || SuggestAlternative?
    }
  }

  const MAX_CONSECUTIVE_FAILURES := 3

  function DecideRecovery(mode: FailureMode, attempt: nat, maxRetries: nat): RecoveryAction {
    if mode.LoopDetected? then Abort
    else if attempt >= maxRetries then ExplainAndStop
    else
      match mode
      case ParseError(InvalidJson) => RetryWithFix
      case ParseError(MissingField(_)) => RetryWithFix
      case ParseError(UnexpectedFormat) => RetryWithTemperatureDelta
      case ToolExecError(PermissionDenied) => SuggestAlternative
      case ToolExecError(CommandNotFound) => SuggestAlternative
      case ToolExecError(Timeout) => RetryWithFix
      case ToolExecError(InvalidArguments(_)) => RetryWithFix
      case ToolExecError(ExitCodeNonZero(_)) => RetryWithFix
      case ToolExecError(Unknown(_)) => RetryWithFix
      case ReasoningError => RetryWithTemperatureDelta
      case LoopDetected => Abort
      case ContextOverflow => Replan
      case RateLimited => RetryWithFix
      case NetworkError => RetryWithFix
      case ServerDisconnect => RetryWithFix
  }

  // ---- The recovery site and its history ----

  datatype Event = Succeeded | Failed(mode: FailureMode)

  /** The failures since the last success, oldest first. */
  function Streak(history: seq<Event>): seq<FailureMode> {
    if |history| == 0 then []
    else
      match history[|history| - 1]
      case Succeeded => []
      case Failed(mode) => Streak(history[..|history| - 1]) + [mode]
  }

  class ContinueSite {
    var consecutiveFailures: nat
    var lastFailureMode: Option<FailureMode>
    ghost var history: seq<Event>

    ghost predicate Valid()
      reads this
    {
      var streak := Streak(history);
      && consecutiveFailures == |streak|
      && lastFailureMode == if |streak| == 0 then None else Some(streak[|streak| - 1])
    }

    constructor ()
      ensures Valid() && history == []
    {
      consecutiveFailures, lastFailureMode, history := 0, None, [];
    }

    method RecordSuccess()
      requires Valid()
      modifies this
      ensures Valid() && history == old(history) + [Succeeded]
    {
      consecutiveFailures, lastFailureMode := 0, None;
      history := history + [Succeeded];
    }

    method RecordFailure(mode: FailureMode)
      requires Valid()
      modifies this
      ensures Valid() && history == old(history) + [Failed(mode)]
    {
      consecutiveFailures, lastFailureMode := consecutiveFailures + 1, Some(mode);
      assert (history + [Failed(mode)])[..|history|] == history;
      history := history + [Failed(mode)];
    }

    method DecideEscalatedRecovery(maxRetries: nat) returns (action: RecoveryAction)
      requires Valid()
      ensures action == Advice(history, maxRetries)
    {
      var mode := match lastFailureMode { case Some(m) => m case None => ReasoningError };
      if consecutiveFailures > MAX_CONSECUTIVE_FAILURES {
        return ExplainAndStop;
      }
      if consecutiveFailures >= MAX_CONSECUTIVE_FAILURES {
        return Replan;
      }
      action := DecideRecovery(mode, if consecutiveFailures > 0 then consecutiveFailures - 1 else 0, maxRetries);
    }
  }

  /** What the site advises after a history. */
  function Advice(history: seq<Event>, maxRetries: nat): RecoveryAction {
    var streak := Streak(history);
    if |streak| >= 4 then ExplainAndStop
    else if |streak| == 3 then Replan
    else if |streak| == 0 then DecideRecovery(ReasoningError, 0, maxRetries)
    else DecideRecovery(streak[|streak| - 1], |streak| - 1, maxRetries)
  }

  // ---- What the ladder guarantees over whole histories ----

  ghost predicate Failures(events: seq<Event>) {
    forall i :: 0 <= i < |events| ==> events[i].Failed?
  }

  lemma {:induction false} StreakGrows(history: seq<Event>, failures: seq<Event>)
    requires Failures(failures)
    ensures |Streak(history + failures)| == |Streak(history)| + |failures|
  {
    if |failures| == 0 {
      assert history + failures == history;
    } else {
      var front := failures[..|failures| - 1];
      StreakGrows(history, front);
      assert (history + failures)[..|history + failures| - 1] == history + front;
    }
  }

  /** Whatever came before, every fourth or later failure in a row is answered with a stop. */
  lemma {:induction false} FourthFailureStops(history: seq<Event>, failures: seq<Event>, maxRetries: nat)
    requires Failures(failures) && |failures| >= 4
    ensures Advice(history + failures, maxRetries) == ExplainAndStop
  {
    StreakGrows(history, failures);
  }

  /** A retry is advised only after the first or second failure in a row, within the retry budget, and never for a
      loop or an overflow; a stop is advised exactly past the ladder, past the budget or on an early loop. */
  lemma {:induction false} LadderExact(history: seq<Event>, mode: FailureMode, maxRetries: nat)
    ensures var h := history + [Failed(mode)];
            var n := |Streak(history)| + 1;
            && (Advice(h, maxRetries).Retries()
                <==> n <= 2 && n <= maxRetries && !mode.LoopDetected? && !mode.ContextOverflow?)
            && (Advice(h, maxRetries).Stops()
                <==> n >= 4 || (n <= 2 && (n > maxRetries || mode.LoopDetected?)))
            && (Advice(h, maxRetries).Abort? <==> n <= 2 && mode.LoopDetected?)
  {
    assert (history + [Failed(mode)])[..|history|] == history;
  }

  /** Which retry, and when a replan instead: by the kind of failure alone, while the budget lasts. */
  lemma {:induction false} RetryKinds(history: seq<Event>, mode: FailureMode, maxRetries: nat)
    requires |Streak(history)| <= 1 && |Streak(history)| < maxRetries
    ensures var advice := Advice(history + [Failed(mode)], maxRetries);
            && (advice == SuggestAlternative
                <==> mode.ToolExecError? && (mode.tool.PermissionDenied? || mode.tool.CommandNotFound?))
            && (advice == RetryWithTemperatureDelta
                <==> mode.ReasoningError? || (mode.ParseError? && mode.parse.UnexpectedFormat?))
            && (advice == Replan <==> mode.ContextOverflow?)
            && (advice == RetryWithFix
                <==> || mode.RateLimited? || mode.NetworkError? || mode.ServerDisconnect?
                     || (mode.ParseError? && !mode.parse.UnexpectedFormat?)
                     || (mode.ToolExecError? && !mode.tool.PermissionDenied? && !mode.tool.CommandNotFound?))
  {
    assert (history + [Failed(mode)])[..|history|] == history;
  }

  /** The recovery rule itself aborts on a loop at any attempt. A loop reported to the site is aborted exactly when it
      is one of the first two failures in a row; as the third it is replanned. */
  lemma {:induction false} LoopAbortsOnlyEarly(history: seq<Event>, maxRetries: nat)
    ensures Advice(history + [Failed(LoopDetected)], maxRetries) == Abort <==> |Streak(history)| <= 1
    ensures |Streak(history)| == 2 ==> Advice(history + [Failed(LoopDetected)], maxRetries) == Replan
  {
    assert (history + [Failed(LoopDetected)])[..|history|] == history;
  }
}

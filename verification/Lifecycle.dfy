/** The structural lifecycle graph of src/domain/lifecycle.ts. */
module Lifecycle {
  import opened Options

  datatype TaskStatus =
    | Queued
    | Framed
    | ProofReady
    | Implementing
    | Verifying
    | PrePrReviewing
    | Reviewing
    | Repairing
    | ReadyForHuman
    | Blocked
    | Completed

  datatype Phase = PrePr | PostPr

  datatype DecisionCode =
    | TransitionAllowed
    | InvalidTransition
    | CompletedTerminal
    | BlockedResumeRequired
    | BlockedResumeMismatch
    | PrePrReviewBoundaryRequired
    | PostPrImplementationReentryForbidden

  const REPAIR_BUDGET := 3

  const REPAIR_ENTRY_STATES := {Verifying, Reviewing, ReadyForHuman}

  const POST_PR_STATES := {Reviewing, ReadyForHuman, Completed}

  function ForwardTransitions(source: TaskStatus): seq<TaskStatus> {
    match source
    case Queued => [Framed]
    case Framed => [ProofReady]
    case ProofReady => [Implementing]
    case Implementing => [Verifying]
    case Verifying => [Implementing, PrePrReviewing, Reviewing, Repairing]
    case PrePrReviewing => [Implementing, Reviewing]
    case Reviewing => [Repairing, ReadyForHuman]
    case Repairing => [Verifying]
    case ReadyForHuman => [Repairing, Completed]
    case Blocked => []
    case Completed => []
  }

  predicate IsForward(source: TaskStatus, target: TaskStatus) {
    target in ForwardTransitions(source)
  }

  predicate IsRepairEntry(source: TaskStatus, target: TaskStatus) {
    target == Repairing && source in REPAIR_ENTRY_STATES
  }

  function DeterministicForwardTarget(status: TaskStatus): Option<TaskStatus> {
    var targets := ForwardTransitions(status);
    if |targets| == 1 then Some(targets[0]) else None
  }

  function EvaluateLifecycleTransition(
    source: TaskStatus, target: TaskStatus, blockedFrom: Option<TaskStatus>, phase: Option<Phase>): DecisionCode
  {
    if source == Completed then CompletedTerminal
    else if source == Blocked then
      if blockedFrom.None? || blockedFrom.value == Blocked || blockedFrom.value == Completed then BlockedResumeRequired
      else if target != blockedFrom.value then BlockedResumeMismatch
      else TransitionAllowed
    else if target == Blocked then TransitionAllowed
    else if phase == Some(PostPr) && target == Implementing && source != ProofReady then
      PostPrImplementationReentryForbidden
    else if phase == Some(PrePr) && source == Verifying && target == Reviewing then PrePrReviewBoundaryRequired
    else if phase == Some(PostPr) && (source == PrePrReviewing || target == PrePrReviewing) then InvalidTransition
    else if IsForward(source, target) then TransitionAllowed
    else InvalidTransition
  }

  /** `history` is the list of target states of the applied transitions, oldest first. */
  function DeriveLifecyclePhase(history: seq<TaskStatus>, auditGenesisState: Option<TaskStatus>): Phase {
    if (auditGenesisState.Some? && auditGenesisState.value in POST_PR_STATES)
       || (exists i :: 0 <= i < |history| && history[i] in POST_PR_STATES)
    then PostPr else PrePr
  }
}

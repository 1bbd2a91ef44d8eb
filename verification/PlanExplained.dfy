/** Every answer of the planner, from the stored rows: what it proposes, whether that may be done, and why not. */
module PlanExplained {
  import opened Options
  import opened Lifecycle
  import opened SessionTransition
  import opened ProofEvidence
  import opened StoreTables
  import opened StoreInvariant
  import opened SessionStore
  import opened SessionService
  import opened StoredEvidence
  import opened PlannedTransitions
  import opened Warrants

  /** What the planner says of a session that is verifying. */
  lemma VerifyingPlan(codec: Codec, v: View, observed: Observation)
    requires v.task.status == Verifying && v.plan.Some? && observed.planIntact
    ensures
      var status := EvaluateProofEvidence(
                      v.plan.value, v.gates, Some(observed.repository.headSha), observed.inspection);
      PlanNext(codec, v, observed)
      == PlanVerifyingTransition(
           v.task.stateVersion, PhaseOf(v), status, RepairCount(v.transitions), FullContext(codec, v, v, observed))
  {
    hide EvaluateProofEvidence, EvaluateCiProofEvidence, EvaluateReviewEvidence, FullContext, PhaseOf, RepairCount,
      PlanVerifyingTransition;
  }

  /** The one candidate, and whether the guards would let it through. */
  predicate Proposes(planned: Planned, v: View, target: TaskStatus, executable: bool) {
    && planned.candidate == Some(Candidate(v.task.status, target, v.task.stateVersion, executable))
    && (planned.failure.None? <==> executable)
  }

  predicate Declines(planned: Planned, failure: string) {
    planned.candidate.None? && planned.failure == Some(failure)
  }

  /** A real failure counts even beside gates that are outdated or have not run. */
  lemma FailedGateIsPlanned(codec: Codec, session: string, v: View, observed: Observation)
    requires SessionInv(codec, session, v) && v.task.status == Verifying && v.plan.Some? && observed.planIntact
    requires ProofFailed(v, observed)
    ensures
      var planned := PlanNext(codec, v, observed);
      if !HasBeenReviewed(v) then Proposes(planned, v, Implementing, OnBranch(v, observed))
      else if RepairCount(v.transitions) < 3 then Proposes(planned, v, Repairing, true)
      else Proposes(planned, v, Blocked, false) && planned.failure == Some("REPAIR_BUDGET_EXHAUSTED")
  {
    hide SessionInv, FullContext, EvaluateTransitionGuards, PhaseOf, RepairCount, PlanNext, EvaluateProofEvidence,
      ProofFailed, HasBeenReviewed, OnBranch, BringsNoReview, BringsReview;
    VerifyingPlan(codec, v, observed);
    ProofFailedIsExact(codec, session, v, observed);
    PhaseIsExact(codec, session, v);
    ContextIsExact(codec, session, v, observed);
    assert FullContext(codec, v, v, observed).(phase := Some(PhaseOf(v))) == FullContext(codec, v, v, observed);
    EmptyBringsNothing();
    VerifiedIsExact(codec, session, v, Implementing, EMPTY_INPUT, observed);
    VerifiedIsExact(codec, session, v, Repairing, EMPTY_INPUT, observed);
  }

  lemma EmptyBringsNothing()
    ensures BringsNoReview(EMPTY_INPUT)
  {
  }

  /** Passing proof leads on; to review only with CI that passes too, and from the plan's clean branch. */
  lemma PassedProofIsPlanned(codec: Codec, session: string, v: View, observed: Observation)
    requires SessionInv(codec, session, v) && v.task.status == Verifying && v.plan.Some? && observed.planIntact
    requires forall gate :: gate in v.plan.value.gates ==>
               GateProved(v.plan.value, v.gates, gate, Some(observed.repository.headSha), observed.inspection)
    ensures
      Proposes(
        PlanNext(codec, v, observed), v, if HasBeenReviewed(v) then Reviewing else PrePrReviewing,
        OnBranch(v, observed) && ProofStands(v, observed.repository.headSha, observed.inspection))
  {
    hide SessionInv, FullContext, EvaluateTransitionGuards, PhaseOf, RepairCount, PlanNext, EvaluateProofEvidence,
      HasBeenReviewed, OnBranch, BringsNoReview, BringsReview, ProofStands, GateProved, ProofFailed;
    VerifyingPlan(codec, v, observed);
    EvidenceIsDistinct(codec, session, v);
    LocalProofIsExact(v.plan.value, v.gates, Some(observed.repository.headSha), observed.inspection);
    PhaseIsExact(codec, session, v);
    ContextIsExact(codec, session, v, observed);
    assert FullContext(codec, v, v, observed).(phase := Some(PhaseOf(v))) == FullContext(codec, v, v, observed);
    EmptyBringsNothing();
    VerifiedIsExact(codec, session, v, PrePrReviewing, EMPTY_INPUT, observed);
    VerifiedIsExact(codec, session, v, Reviewing, EMPTY_INPUT, observed);
  }

  /** What keeps the planner from proposing anything is named: the gravest trouble first. */
  lemma TroubleIsNamed(codec: Codec, session: string, v: View, observed: Observation)
    requires SessionInv(codec, session, v) && v.task.status == Verifying && v.plan.Some? && observed.planIntact
    ensures
      var planned, plan, head := PlanNext(codec, v, observed), v.plan.value, Some(observed.repository.headSha);
      var tampered := exists g :: g in plan.gates && GateTampered(v.gates, g, observed.inspection);
      var broke := exists g :: g in plan.gates && GateSetupBroke(plan, v.gates, g, head, observed.inspection);
      var refuted := exists g :: g in plan.gates && GateRefuted(plan, v.gates, g, head, observed.inspection);
      var outdated := exists g :: g in plan.gates && GateOutdated(plan, v.gates, g, head, observed.inspection);
      var unrun := exists g :: g in plan.gates && GateUnrun(v.gates, g);
      && (tampered ==> Declines(planned, "PROOF_RECEIPTS_CORRUPT"))
      && (broke && !tampered ==> Declines(planned, "PROOF_GATE_SETUP_FAILED"))
      && (outdated && !refuted && !broke && !tampered ==> Declines(planned, "PROOF_RECEIPTS_STALE"))
      && (unrun && !outdated && !refuted && !broke && !tampered ==> Declines(planned, "PROOF_GATES_MISSING"))
  {
    hide SessionInv, FullContext, EvaluateTransitionGuards, PhaseOf, RepairCount, PlanNext, EvaluateProofEvidence,
      GateTampered, GateSetupBroke, GateRefuted, GateOutdated, GateUnrun;
    VerifyingPlan(codec, v, observed);
    EvidenceIsDistinct(codec, session, v);
    ProofStatusIsExact(v.plan.value, v.gates, Some(observed.repository.headSha), observed.inspection);
  }

  /** Outside `verifying`: what is over, what a person must undo or judge, and whether the rest may go on. */
  lemma OtherPlans(codec: Codec, v: View, observed: Observation)
    requires v.task.status != Verifying
    ensures
      var planned := PlanNext(codec, v, observed);
      if v.task.status == Completed then planned == Planned(None, None, Some(TerminalCompleted))
      else if v.task.status == Blocked then
        && planned.failure == Some("RECOVERY_EVIDENCE_REQUIRED")
        && planned.terminalReason == Some(BlockedRequiresHumanRecovery)
        && (v.task.blockedFrom.Some? ==>
              planned.candidate == Some(Candidate(Blocked, v.task.blockedFrom.value, v.task.stateVersion, false)))
      else if v.task.status == PrePrReviewing then Declines(planned, "PRE_PR_REVIEW_OUTCOME_REQUIRED")
      else
        && planned.candidate.Some? && planned.terminalReason.None?
        && var candidate := planned.candidate.value;
        && candidate.source == v.task.status && candidate.expectedStateVersion == v.task.stateVersion
        && IsForward(candidate.source, candidate.target)
        && (planned.failure.None? <==> candidate.executable)
  {
    hide EvaluateSessionProof, FullContext, PhaseOf, EvaluateTransitionGuards;
  }
}

/** Transition guards and the next-transition planner of src/domain/session-transition.ts. */
module SessionTransition {
  import opened Options
  import opened JsonValues
  import opened Lifecycle

  // ----- evidence the guards read

  datatype EvidenceStatus = Missing | Passed | Failed | SetupFailed | Stale | Corrupt

  datatype CiStatus = CiPolicyMissing | CiMissing | CiPassed | CiStale | CiCorrupt

  datatype ReviewStatus = ReviewPolicyMissing | ReviewMissing | ReviewCurrent | ReviewStale | ReviewCorrupt

  datatype ReviewDecision = Approved | ChangesRequested | ReviewRequired

  datatype Approval = Approval(actorType: Text, commitSha: Text)

  datatype ReviewEvidence = ReviewEvidence(
    status: ReviewStatus,
    snapshotId: Option<string>,
    headSha: Option<Text>,
    decision: Option<ReviewDecision>,
    blockingFindings: seq<string>,
    approvals: seq<Approval>,
    merged: bool)

  datatype BoundPlan = BoundPlan(
    sha256: string, gates: seq<string>, signedCi: bool, signedReview: bool, baselineBranch: Text, baselineHeadSha: Text)

  datatype BasisSource = ProofPlanBaseline | FailedLocalProof | PrePrReview

  datatype ImplementationBasis = ImplementationBasis(headSha: Text, source: BasisSource)

  datatype RepositoryFacts = RepositoryFacts(
    branch: Option<Text>, headSha: Text, clean: bool,
    committedImplementationFromBasis: bool, committedRepairFromFailure: bool)

  datatype GuardContext = GuardContext(
    boundPlan: Option<BoundPlan>,
    plan: Option<BoundPlan>,
    evidence: Option<EvidenceStatus>,
    ci: Option<CiStatus>,
    review: Option<ReviewEvidence>,
    phase: Option<Phase>,
    basis: Option<ImplementationBasis>,
    repository: Option<RepositoryFacts>,
    attemptsUsed: Option<nat>)

  const EMPTY_CONTEXT := GuardContext(None, None, None, None, None, None, None, None, None)

  datatype GuardDecision = GuardsAllowed | GuardsDenied(failure: string)

  datatype ReviewOutcome = ChangesRequired | Clean

  datatype Finding = Finding(id: Text, summary: Text, path: Text)

  datatype PrePrReviewEvidence = PrePrReviewEvidence(
    outcome: ReviewOutcome, headSha: Text, evidenceRef: Text, evidenceSha256: Text, findings: seq<Finding>)

  const USER := Ascii("User")

  predicate HasBlockingReview(review: ReviewEvidence) {
    review.decision == Some(ChangesRequested) || |review.blockingFindings| > 0
  }

  /** `Boolean(evidence.headSha && ...)`: the empty string is falsy in the source. */
  predicate HasCurrentHumanApproval(review: ReviewEvidence) {
    && review.headSha.Some?
    && review.headSha.value != []
    && exists a :: a in review.approvals && a.actorType == USER && a.commitSha == review.headSha.value
  }

  // ----- reading `pre_pr_review` out of the request input

  predicate IsWhitespace(unit: CodeUnit) {
    || 0x9 <= unit <= 0xD || unit == 0x20 || unit == 0xA0 || unit == 0x1680 || 0x2000 <= unit <= 0x200A
    || unit == 0x2028 || unit == 0x2029 || unit == 0x202F || unit == 0x205F || unit == 0x3000 || unit == 0xFEFF
  }

  /** All disallowed characters are in the basic plane, so looking at code units is looking at code points. */
  predicate IsDisallowedTextCharacter(unit: CodeUnit) {
    unit <= 0x1F || 0x7F <= unit <= 0x9F || unit == 0x2028 || unit == 0x2029
  }

  predicate IsNormalizedText(text: Text) {
    && text != []
    && !IsWhitespace(text[0])
    && !IsWhitespace(text[|text| - 1])
    && forall u :: u in text ==> !IsDisallowedTextCharacter(u)
  }

  predicate IsLowerHex(text: Text, length: nat) {
    |text| == length && forall u :: u in text ==> 0x30 <= u <= 0x39 || 0x61 <= u <= 0x66
  }

  function Field(value: Json, name: string): Option<Json>
  {
    if value.Obj? && Ascii(name) in value.members then Some(value.members[Ascii(name)]) else None
  }

  function TextField(value: Json, name: string): Option<Text>
  {
    var field := Field(value, name);
    if field.Some? && field.value.Str? then Some(field.value.text) else None
  }

  predicate HasRequiredTextField(value: Json, name: string)
  {
    var text := TextField(value, name);
    text.Some? && exists u :: u in text.value && !IsWhitespace(u)
  }

  predicate HasBlockEvidence(input: Json) {
    var block := Field(input, "block");
    && block.Some?
    && HasRequiredTextField(block.value, "reason")
    && HasRequiredTextField(block.value, "evidence_ref")
    && HasRequiredTextField(block.value, "recovery")
    && HasRequiredTextField(block.value, "stop_code")
  }

  predicate HasRecoveryEvidence(input: Json) {
    var recovery := Field(input, "recovery");
    && recovery.Some?
    && HasRequiredTextField(recovery.value, "approved_by")
    && HasRequiredTextField(recovery.value, "evidence_ref")
    && HasRequiredTextField(recovery.value, "reason")
  }

  predicate NormalizedField(value: Json, name: string)
  {
    var text := TextField(value, name);
    text.Some? && IsNormalizedText(text.value)
  }

  predicate IsFinding(candidate: Json) {
    NormalizedField(candidate, "id") && NormalizedField(candidate, "summary") && NormalizedField(candidate, "path")
  }

  function ToFinding(candidate: Json): Finding
    requires IsFinding(candidate)
  {
    Finding(
      TextField(candidate, "id").value, TextField(candidate, "summary").value, TextField(candidate, "path").value)
  }

  /** Every element is a finding, and no identifier occurs twice. */
  predicate AreFindings(items: seq<Json>) {
    && (forall i :: 0 <= i < |items| ==> IsFinding(items[i]))
    && (forall i, j :: 0 <= i < j < |items| ==> ToFinding(items[i]).id != ToFinding(items[j]).id)
  }

  function ToFindings(items: seq<Json>): seq<Finding>
    requires AreFindings(items)
  {
    seq(|items|, i requires 0 <= i < |items| => ToFinding(items[i]))
  }

  lemma ExtendFindings(items: seq<Json>, n: nat)
    requires n < |items| && AreFindings(items[..n])
    ensures AreFindings(items[..n + 1])
            <==> IsFinding(items[n])
                 && forall f :: f in ToFindings(items[..n]) ==> f.id != ToFinding(items[n]).id
    ensures AreFindings(items[..n + 1])
            ==> ToFindings(items[..n + 1]) == ToFindings(items[..n]) + [ToFinding(items[n])]
  {
    hide IsFinding, ToFinding;
    var init, more := items[..n], items[..n + 1];
    assert forall i :: 0 <= i < n ==> more[i] == init[i];
    assert more[n] == items[n];
    assert forall i :: 0 <= i < n ==> ToFindings(init)[i] == ToFinding(init[i]);
    if AreFindings(more) {
      forall f | f in ToFindings(init) ensures f.id != ToFinding(items[n]).id {
        var i :| 0 <= i < n && ToFindings(init)[i] == f;
        assert ToFinding(more[i]).id != ToFinding(more[n]).id;
      }
    }
  }

  lemma FindingsPrefix(items: seq<Json>, n: nat)
    requires n <= |items| && AreFindings(items)
    ensures AreFindings(items[..n])
  {
  }

  /** The loop of `readPrePrReviewEvidence`: collects findings until one is malformed or repeats an identifier. */
  method ReadFindings(items: seq<Json>) returns (result: Option<seq<Finding>>)
    ensures result == if AreFindings(items) then Some(ToFindings(items)) else None
  {
    var findings: seq<Finding> := [];
    var findingIds: set<Text> := {};
    for n := 0 to |items|
      invariant AreFindings(items[..n]) && findings == ToFindings(items[..n])
      invariant findingIds == set f | f in findings :: f.id
    {
      var candidate := items[n];
      ExtendFindings(items, n);
      if !IsFinding(candidate) || ToFinding(candidate).id in findingIds {
        if AreFindings(items) { FindingsPrefix(items, n + 1); }
        return None;
      }
      findingIds := findingIds + {ToFinding(candidate).id};
      findings := findings + [ToFinding(candidate)];
    }
    assert items[..|items|] == items;
    return Some(findings);
  }

  function ReadOutcome(review: Json): Option<ReviewOutcome> {
    var outcome := TextField(review, "outcome");
    if outcome == Some(Ascii("changes_required")) then Some(ChangesRequired)
    else if outcome == Some(Ascii("clean")) then Some(Clean)
    else None
  }

  function ReadPrePrReviewEvidence(input: Json): Option<PrePrReviewEvidence> {
    var value := Field(input, "pre_pr_review");
    if value.None? then None
    else
      var review := value.value;
      var outcome := ReadOutcome(review);
      var items := Field(review, "findings");
      if outcome.None? then None
      else if !NormalizedField(review, "head_sha") || !IsLowerHex(TextField(review, "head_sha").value, 40)
              || !NormalizedField(review, "evidence_ref")
              || !NormalizedField(review, "evidence_sha256")
              || !IsLowerHex(TextField(review, "evidence_sha256").value, 64)
              || items.None? || !items.value.Arr? then None
      else if !AreFindings(items.value.items) then None
      else
        var findings := ToFindings(items.value.items);
        if (outcome.value == ChangesRequired && |findings| == 0) || (outcome.value == Clean && |findings| != 0) then
          None
        else Some(PrePrReviewEvidence(
                    outcome.value, TextField(review, "head_sha").value, TextField(review, "evidence_ref").value,
                    TextField(review, "evidence_sha256").value, findings))
  }

  // ----- guards

  datatype GuardRequirement = NoGuard | ProofPlanGuard | ProofGuard | ReviewGuard

  function TransitionGuardRequirement(source: TaskStatus, target: TaskStatus): GuardRequirement {
    if target == Blocked || source == Blocked || (source == Queued && target == Framed) then NoGuard
    else if source == Framed && target == ProofReady then ProofPlanGuard
    else if source == Reviewing || source == ReadyForHuman || target == Completed then ReviewGuard
    else ProofGuard
  }

  predicate RequiresProofGuardContext(source: TaskStatus, target: TaskStatus) {
    IsForward(source, target) && TransitionGuardRequirement(source, target) == ProofGuard
  }

  function LiveHead(proof: GuardContext): Option<Text> {
    if proof.repository.Some? then Some(proof.repository.value.headSha) else None
  }

  function ValidateTransitionEvidence(
    source: TaskStatus, target: TaskStatus, input: Json, proof: GuardContext): GuardDecision
  {
    var review := ReadPrePrReviewEvidence(input);
    var supplied := Field(input, "pre_pr_review").Some?;
    var required :=
      || (source == PrePrReviewing && (target == Implementing || target == Reviewing))
      || (source == Verifying && target == Implementing && proof.evidence != Some(Failed));
    if target == Blocked && !HasBlockEvidence(input) then GuardsDenied("BLOCK_EVIDENCE_REQUIRED")
    else if source == Blocked && !HasRecoveryEvidence(input) then GuardsDenied("RECOVERY_EVIDENCE_REQUIRED")
    else if supplied && review.None? then GuardsDenied("PRE_PR_REVIEW_FINDINGS_INVALID")
    else if required && review.None? then GuardsDenied("PRE_PR_REVIEW_INPUT_REQUIRED")
    else if review.None? then GuardsAllowed
    else if !((source == Verifying && target == Implementing)
              || (source == PrePrReviewing && (target == Implementing || target == Reviewing))) then
      GuardsDenied("PRE_PR_REVIEW_FINDINGS_INVALID")
    else if LiveHead(proof) != Some(review.value.headSha) then GuardsDenied("PRE_PR_REVIEW_HEAD_MISMATCH")
    else if target == Implementing && review.value.outcome != ChangesRequired then
      GuardsDenied("PRE_PR_REVIEW_FINDINGS_INVALID")
    else if target != Implementing && source == PrePrReviewing && target == Reviewing
            && review.value.outcome != Clean then
      GuardsDenied("PRE_PR_REVIEW_FINDINGS_INVALID")
    else GuardsAllowed
  }

  predicate OnPlanBranch(plan: BoundPlan, repository: RepositoryFacts) {
    repository.clean && repository.branch == Some(plan.baselineBranch)
  }

  predicate HasOutcome(input: Json, outcome: ReviewOutcome) {
    var review := ReadPrePrReviewEvidence(input);
    review.Some? && review.value.outcome == outcome
  }

  predicate RepairBudgetLeft(proof: GuardContext) {
    proof.attemptsUsed.GetOr(REPAIR_BUDGET) < REPAIR_BUDGET
  }

  function EvaluateProofOwnedGuards(
    source: TaskStatus, target: TaskStatus, input: Json, proof: GuardContext): GuardDecision
  {
    if proof.plan.None? || proof.repository.None? then GuardsDenied("PROOF_PLAN_REQUIRED")
    else
      var plan, repository := proof.plan.value, proof.repository.value;
      if source == ProofReady && target == Implementing then
        if OnPlanBranch(plan, repository) && repository.headSha == plan.baselineHeadSha then GuardsAllowed
        else GuardsDenied("PROOF_BASELINE_MISMATCH")
      else if source == Implementing && target == Verifying then
        if OnPlanBranch(plan, repository) && proof.basis.Some? && repository.headSha != proof.basis.value.headSha
           && repository.committedImplementationFromBasis then GuardsAllowed
        else if proof.basis.Some? then GuardsDenied("IMPLEMENTATION_BASIS_NOT_ADVANCED")
        else GuardsDenied("COMMITTED_IMPLEMENTATION_REQUIRED")
      else if source == Verifying && target == Implementing then
        if proof.phase != Some(PrePr) then GuardsDenied("POST_PR_IMPLEMENTATION_REENTRY_FORBIDDEN")
        else if !OnPlanBranch(plan, repository) then GuardsDenied("PROOF_CHECKOUT_MISMATCH")
        else if proof.evidence == Some(Failed) || HasOutcome(input, ChangesRequired) then GuardsAllowed
        else GuardsDenied("PRE_PR_REVIEW_INPUT_REQUIRED")
      else if source == Verifying && (target == PrePrReviewing || target == Reviewing) then
        if target == PrePrReviewing && proof.phase != Some(PrePr) then
          GuardsDenied("POST_PR_IMPLEMENTATION_REENTRY_FORBIDDEN")
        else if target == Reviewing && proof.phase != Some(PostPr) then GuardsDenied("PRE_PR_REVIEW_INPUT_REQUIRED")
        else if proof.evidence != Some(Passed) then GuardsDenied("CURRENT_PASSING_PROOF_REQUIRED")
        else if !OnPlanBranch(plan, repository) then GuardsDenied("PROOF_CHECKOUT_MISMATCH")
        else if proof.ci != Some(CiPassed) then SignedCiProofGuard(proof.ci.GetOr(CiMissing))
        else GuardsAllowed
      else if source == PrePrReviewing && target == Implementing then
        if proof.phase == Some(PrePr) && OnPlanBranch(plan, repository) && HasOutcome(input, ChangesRequired) then
          GuardsAllowed
        else GuardsDenied("PRE_PR_REVIEW_INPUT_REQUIRED")
      else if source == PrePrReviewing && target == Reviewing then
        if proof.phase != Some(PrePr) || !HasOutcome(input, Clean) then GuardsDenied("PRE_PR_REVIEW_INPUT_REQUIRED")
        else if proof.evidence != Some(Passed) || proof.ci != Some(CiPassed) || !OnPlanBranch(plan, repository) then
          GuardsDenied("CURRENT_REVIEW_PROOF_SET_REQUIRED")
        else GuardsAllowed
      else if source == Verifying && target == Repairing then
        if proof.phase != Some(PostPr) then GuardsDenied("CURRENT_FAILED_PROOF_REQUIRED")
        else if proof.evidence == Some(Failed) && RepairBudgetLeft(proof) then GuardsAllowed
        else if !RepairBudgetLeft(proof) then GuardsDenied("REPAIR_BUDGET_EXHAUSTED")
        else GuardsDenied("CURRENT_FAILED_PROOF_REQUIRED")
      else if source == Repairing && target == Verifying then
        if OnPlanBranch(plan, repository) && repository.committedRepairFromFailure then GuardsAllowed
        else GuardsDenied("COMMITTED_REPAIR_REQUIRED")
      else GuardsDenied("PROOF_AUTHORITY_DEFERRED")
  }

  function SignedCiProofGuard(status: CiStatus): GuardDecision {
    match status
    case CiPolicyMissing => GuardsDenied("CI_PROOF_POLICY_REQUIRED")
    case CiMissing => GuardsDenied("SIGNED_CI_PROOF_REQUIRED")
    case CiStale => GuardsDenied("CURRENT_SIGNED_CI_PROOF_REQUIRED")
    case CiCorrupt => GuardsDenied("UNCORRUPTED_SIGNED_CI_PROOF_REQUIRED")
    case CiPassed => GuardsDenied("SIGNED_CI_PROOF_REQUIRED")
  }

  /** The review exists, is current, and names the live HEAD. */
  predicate CurrentReviewAtLiveHead(proof: GuardContext) {
    && proof.review.Some?
    && proof.review.value.status == ReviewCurrent
    && proof.review.value.headSha.Some?
    && proof.review.value.headSha.value != []
    && LiveHead(proof) == proof.review.value.headSha
  }

  function ReviewUnusable(proof: GuardContext): GuardDecision {
    match if proof.review.Some? then proof.review.value.status else ReviewMissing
    case ReviewPolicyMissing => GuardsDenied("REVIEW_PROOF_POLICY_REQUIRED")
    case ReviewMissing => GuardsDenied("SIGNED_REVIEW_PROOF_REQUIRED")
    case ReviewStale => GuardsDenied("CURRENT_REVIEW_PROOF_REQUIRED")
    case ReviewCorrupt => GuardsDenied("UNCORRUPTED_REVIEW_PROOF_REQUIRED")
    case ReviewCurrent => GuardsDenied("CURRENT_REVIEW_PROOF_REQUIRED")
  }

  function EvaluateReviewOwnedGuards(source: TaskStatus, target: TaskStatus, proof: GuardContext): GuardDecision {
    if !CurrentReviewAtLiveHead(proof) then ReviewUnusable(proof)
    else
      var review := proof.review.value;
      var blocking := HasBlockingReview(review);
      if target == Repairing then
        if blocking && RepairBudgetLeft(proof) then GuardsAllowed
        else if !RepairBudgetLeft(proof) then GuardsDenied("REPAIR_BUDGET_EXHAUSTED")
        else GuardsDenied("BLOCKING_REVIEW_FINDING_REQUIRED")
      else if blocking then GuardsDenied("BLOCKING_REVIEW_FINDINGS")
      else if proof.evidence != Some(Passed) || proof.ci != Some(CiPassed) then
        GuardsDenied("CURRENT_REVIEW_PROOF_SET_REQUIRED")
      else if source == ReadyForHuman && target == Completed then
        if !HasCurrentHumanApproval(review) then GuardsDenied("CURRENT_HUMAN_APPROVAL_REQUIRED")
        else if !review.merged then GuardsDenied("OBSERVED_MERGE_REQUIRED")
        else GuardsAllowed
      else GuardsAllowed
  }

  function EvaluateTransitionGuards(
    source: TaskStatus, target: TaskStatus, input: Json, blockedFrom: Option<TaskStatus>, proof: GuardContext)
    : GuardDecision
  {
    if source == Blocked && blockedFrom.None? then GuardsDenied("BLOCKED_PRIOR_STATE_REQUIRED")
    else
      var evidence := ValidateTransitionEvidence(source, target, input, proof);
      if evidence.GuardsDenied? then evidence
      else
        match TransitionGuardRequirement(source, target)
        case NoGuard => GuardsAllowed
        case ProofPlanGuard =>
          if proof.boundPlan.Some? then GuardsAllowed else EvaluateProofOwnedGuards(source, target, input, proof)
        case ProofGuard => EvaluateProofOwnedGuards(source, target, input, proof)
        case ReviewGuard => EvaluateReviewOwnedGuards(source, target, proof)
  }

  // ----- planner

  datatype Candidate = Candidate(source: TaskStatus, target: TaskStatus, expectedStateVersion: int, executable: bool)

  datatype TerminalReason = BlockedRequiresHumanRecovery | TerminalCompleted

  datatype Planned = Planned(
    candidate: Option<Candidate>, failure: Option<string>, terminalReason: Option<TerminalReason>)

  /** `{}` */
  const EMPTY_INPUT := Obj(map[])

  function PlanCandidate(source: TaskStatus, target: TaskStatus, version: int, guards: GuardDecision): Planned {
    Planned(Some(Candidate(source, target, version, guards.GuardsAllowed?)),
            if guards.GuardsDenied? then Some(guards.failure) else None, None)
  }

  function PlanVerifyingTransition(
    version: int, phase: Phase, status: EvidenceStatus, attemptsUsed: nat, context: GuardContext): Planned
  {
    var phaseAware := context.(phase := Some(phase));
    if status == Passed then
      PlanVerifyingTo(if phase == PrePr then PrePrReviewing else Reviewing, version, phaseAware)
    else if status == Failed && phase == PrePr then PlanVerifyingTo(Implementing, version, phaseAware)
    else if status == Failed && attemptsUsed < REPAIR_BUDGET then PlanVerifyingTo(Repairing, version, phaseAware)
    else if status == Failed then
      Planned(Some(Candidate(Verifying, Blocked, version, false)), Some("REPAIR_BUDGET_EXHAUSTED"), None)
    else
      Planned(None,
              Some(match status
                   case Missing => "PROOF_GATES_MISSING"
                   case Stale => "PROOF_RECEIPTS_STALE"
                   case Corrupt => "PROOF_RECEIPTS_CORRUPT"
                   case _ => "PROOF_GATE_SETUP_FAILED"),
              None)
  }

  function PlanVerifyingTo(target: TaskStatus, version: int, context: GuardContext): Planned {
    PlanCandidate(
      Verifying, target, version, EvaluateTransitionGuards(Verifying, target, EMPTY_INPUT, None, context))
  }

  function PlanNextTransition(
    state: TaskStatus, version: int, blockedFrom: Option<TaskStatus>, phase: Option<Phase>,
    proof: Option<(EvidenceStatus, nat)>, guardContext: Option<GuardContext>): Planned
  {
    var context := guardContext.GetOr(EMPTY_CONTEXT);
    if state == Completed then Planned(None, None, Some(TerminalCompleted))
    else if state == Blocked then
      Planned(if blockedFrom.Some? then Some(Candidate(Blocked, blockedFrom.value, version, false)) else None,
              Some("RECOVERY_EVIDENCE_REQUIRED"), Some(BlockedRequiresHumanRecovery))
    else if state == Verifying && proof.Some? then
      PlanVerifyingTransition(version, phase.GetOr(PrePr), proof.value.0, proof.value.1, context)
    else if state == PrePrReviewing then Planned(None, Some("PRE_PR_REVIEW_OUTCOME_REQUIRED"), None)
    else if state == Reviewing || state == ReadyForHuman then
      var target :=
        if context.review.Some? && context.review.value.status == ReviewCurrent
           && HasBlockingReview(context.review.value)
        then Repairing
        else if state == Reviewing then ReadyForHuman
        else Completed;
      PlanCandidate(state, target, version, EvaluateTransitionGuards(state, target, EMPTY_INPUT, blockedFrom, context))
    else
      var target := DeterministicForwardTarget(state);
      if target.None? then Planned(None, Some("PROOF_AUTHORITY_DEFERRED"), None)
      else
        PlanCandidate(
          state, target.value, version,
          EvaluateTransitionGuards(state, target.value, EMPTY_INPUT, blockedFrom, context))
  }

  // ----- the planner is exact

  /** Allowed by the graph, and by the guards without any operator input. */
  predicate Applicable(
    state: TaskStatus, target: TaskStatus, blockedFrom: Option<TaskStatus>, phase: Phase, context: GuardContext)
  {
    && EvaluateLifecycleTransition(state, target, blockedFrom, Some(phase)).TransitionAllowed?
    && EvaluateTransitionGuards(state, target, EMPTY_INPUT, blockedFrom, context).GuardsAllowed?
  }

  /** The planner and the guard context were derived from the same evidence. */
  predicate Agrees(context: GuardContext, phase: Phase, status: EvidenceStatus, attemptsUsed: nat) {
    && context.phase == Some(phase)
    && (context.evidence.Some? ==> context.evidence.value == status)
    && (context.attemptsUsed.Some? ==> context.attemptsUsed.value == attemptsUsed)
  }

  lemma EmptyInputCarriesNothing()
    ensures !HasBlockEvidence(EMPTY_INPUT) && !HasRecoveryEvidence(EMPTY_INPUT)
    ensures Field(EMPTY_INPUT, "pre_pr_review").None? && ReadPrePrReviewEvidence(EMPTY_INPUT).None?
  {
  }

  /** What the guards ask of each source state once the input is empty. */
  lemma EmptyInputGuards(source: TaskStatus, target: TaskStatus, blockedFrom: Option<TaskStatus>, proof: GuardContext)
    ensures
      EvaluateTransitionGuards(source, target, EMPTY_INPUT, blockedFrom, proof).GuardsAllowed? <==>
      && target != Blocked
      && source != Blocked
      && !(source == PrePrReviewing && (target == Implementing || target == Reviewing))
      && (source == Verifying && target == Implementing ==> proof.evidence == Some(Failed))
      && match TransitionGuardRequirement(source, target)
         case NoGuard => true
         case ProofPlanGuard =>
           proof.boundPlan.Some? || EvaluateProofOwnedGuards(source, target, EMPTY_INPUT, proof).GuardsAllowed?
         case ProofGuard => EvaluateProofOwnedGuards(source, target, EMPTY_INPUT, proof).GuardsAllowed?
         case ReviewGuard => EvaluateReviewOwnedGuards(source, target, proof).GuardsAllowed?
  {
    EmptyInputCarriesNothing();
  }

  /** The one target the graph and the guards leave open in `verifying`, if any. */
  function VerifyingTarget(phase: Phase, status: EvidenceStatus, attemptsUsed: nat): Option<TaskStatus> {
    match (status, phase)
    case (Passed, PrePr) => Some(PrePrReviewing)
    case (Passed, PostPr) => Some(Reviewing)
    case (Failed, PrePr) => Some(Implementing)
    case (Failed, PostPr) => if attemptsUsed < REPAIR_BUDGET then Some(Repairing) else None
    case _ => None
  }

  lemma VerifyingAdmitsOneTarget(
    phase: Phase, status: EvidenceStatus, attemptsUsed: nat, context: GuardContext, target: TaskStatus)
    requires Agrees(context, phase, status, attemptsUsed)
    requires Applicable(Verifying, target, None, phase, context)
    ensures VerifyingTarget(phase, status, attemptsUsed) == Some(target)
  {
    EmptyInputGuards(Verifying, target, None, context);
  }

  lemma VerifyingPlannerEvaluatesIt(
    version: int, phase: Phase, status: EvidenceStatus, attemptsUsed: nat, context: GuardContext)
    requires context.phase == Some(phase)
    ensures
      var planned := PlanVerifyingTransition(version, phase, status, attemptsUsed, context).candidate;
      match VerifyingTarget(phase, status, attemptsUsed)
      case None => planned.None? || !planned.value.executable
      case Some(target) =>
        planned == Some(Candidate(Verifying, target, version, Applicable(Verifying, target, None, phase, context)))
  {
    assert context.(phase := Some(phase)) == context;
  }

  /** In every other state the graph leaves one forward target, or the review selects between two. */
  function OtherTarget(state: TaskStatus, context: GuardContext): Option<TaskStatus>
    requires state != Verifying
  {
    match state
    case Blocked | Completed | PrePrReviewing => None
    case Reviewing | ReadyForHuman =>
      if context.review.Some? && context.review.value.status == ReviewCurrent && HasBlockingReview(context.review.value)
      then Some(Repairing)
      else Some(if state == Reviewing then ReadyForHuman else Completed)
    case Queued => Some(Framed)
    case Framed => Some(ProofReady)
    case ProofReady => Some(Implementing)
    case Implementing | Repairing => Some(Verifying)
  }

  lemma OtherStatesAdmitOneTarget(
    state: TaskStatus, blockedFrom: Option<TaskStatus>, phase: Phase, context: GuardContext, target: TaskStatus)
    requires state != Verifying
    requires Applicable(state, target, blockedFrom, phase, context)
    ensures OtherTarget(state, context) == Some(target)
  {
    EmptyInputGuards(state, target, blockedFrom, context);
    assert IsForward(state, target);
  }

  lemma OtherPlannerEvaluatesIt(
    state: TaskStatus, version: int, blockedFrom: Option<TaskStatus>, phase: Phase, status: EvidenceStatus,
    attemptsUsed: nat, context: GuardContext)
    requires state != Verifying
    ensures
      var planned := PlanNextTransition(
                       state, version, blockedFrom, Some(phase), Some((status, attemptsUsed)), Some(context)).candidate;
      match OtherTarget(state, context)
      case None => planned.None? || !planned.value.executable
      case Some(target) =>
        planned == Some(Candidate(state, target, version, Applicable(state, target, blockedFrom, phase, context)))
  {
    if OtherTarget(state, context).Some? {
      var target := OtherTarget(state, context).value;
      assert EvaluateLifecycleTransition(state, target, blockedFrom, Some(phase)).TransitionAllowed?;
    }
  }

  /**
   * The planner proposes an executable candidate for exactly the targets that the graph and the guards would both
   * admit with empty input: it never advertises a step that would be refused, and it never hides one.
   */
  lemma PlannerIsExact(
    state: TaskStatus, version: int, blockedFrom: Option<TaskStatus>, phase: Phase, status: EvidenceStatus,
    attemptsUsed: nat, context: GuardContext, target: TaskStatus)
    requires Agrees(context, phase, status, attemptsUsed)
    ensures
      var planned := PlanNextTransition(
                       state, version, blockedFrom, Some(phase), Some((status, attemptsUsed)), Some(context));
      Applicable(state, target, blockedFrom, phase, context)
      <==> planned.candidate == Some(Candidate(state, target, version, true))
  {
    if state == Verifying {
      assert Applicable(state, target, blockedFrom, phase, context) == Applicable(state, target, None, phase, context);
      VerifyingPlannerEvaluatesIt(version, phase, status, attemptsUsed, context);
      if Applicable(Verifying, target, None, phase, context) {
        VerifyingAdmitsOneTarget(phase, status, attemptsUsed, context, target);
      }
    } else {
      OtherPlannerEvaluatesIt(state, version, blockedFrom, phase, status, attemptsUsed, context);
      if Applicable(state, target, blockedFrom, phase, context) {
        OtherStatesAdmitOneTarget(state, blockedFrom, phase, context, target);
      }
    }
  }
}

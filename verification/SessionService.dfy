/**
 * How src/services/session-service.ts prepares a transition: which evidence it reads, and the guard context it builds
 * from what it read. Git, the artifact files and the plan validator are observations.
 */
module SessionService {
  import opened Options
  import opened JsonValues
  import opened Lifecycle
  import opened SessionTransition
  import opened ProofEvidence
  import opened Rows
  import opened StoreTables
  import opened SessionStore

  datatype Repository = Repository(branch: Option<Text>, headSha: Text, clean: bool)

  /** What the service observes outside the database while it prepares one transition. */
  datatype Observation = Observation(
    repository: Repository, planIntact: bool, inspection: Inspection, hasCommittedDiff: (Text, Text) -> bool)

  datatype PreparedPlan = PlanReady(plan: BoundPlan) | PlanRejected(failure: string)

  datatype SessionProof = SessionProof(
    plan: Option<BoundPlan>, evidence: EvidenceStatus, ci: CiStatus, review: ReviewEvidence, attemptsUsed: nat,
    receipts: seq<GateReceipt>, signedReviews: seq<ReviewReceipt>)

  predicate IsFullCommitSha(text: Text) {
    IsLowerHex(text, 40)
  }

  /** Repair usage is derived from applied transitions. */
  function RepairCount(rows: seq<Transition>): nat {
    if rows == [] then 0
    else
      var last := rows[|rows| - 1];
      RepairCount(rows[..|rows| - 1]) + if IsRepairEntry(last.source, last.target) then 1 else 0
  }

  function EvaluateSessionProof(v: View, currentHead: Option<Text>, observed: Observation): SessionProof {
    var attemptsUsed := RepairCount(v.transitions);
    if v.plan.None? then
      SessionProof(
        None, Missing, CiPolicyMissing, EmptyReviewEvidence(ReviewPolicyMissing), attemptsUsed, v.gates, v.reviews)
    else if !observed.planIntact then
      SessionProof(None, Corrupt, CiCorrupt, EmptyReviewEvidence(ReviewCorrupt), attemptsUsed, v.gates, v.reviews)
    else
      var plan := v.plan.value;
      SessionProof(
        Some(plan),
        EvaluateProofEvidence(plan, v.gates, currentHead, observed.inspection),
        EvaluateCiProofEvidence(plan, v.signedGates, currentHead, observed.inspection),
        EvaluateReviewEvidence(plan, v.reviews, currentHead, observed.inspection),
        attemptsUsed, v.gates, v.reviews)
  }

  // ----- the guard context

  /** The newest receipt of a gate that ran, on one commit, and did not pass. */
  function LatestFailure(receipts: seq<GateReceipt>): Option<GateReceipt> {
    if receipts == [] then None
    else
      var last := receipts[|receipts| - 1];
      if FailedOnOneCommit(last) then Some(last)
      else LatestFailure(receipts[..|receipts| - 1])
  }

  function LatestImplementationEntry(history: seq<HistoryEntry>): Option<HistoryEntry> {
    if history == [] then None
    else
      var last := history[|history| - 1];
      if last.target == Implementing && last.source in {ProofReady, Verifying, PrePrReviewing} then Some(last)
      else LatestImplementationEntry(history[..|history| - 1])
  }

  function CurrentRepairEntry(history: seq<HistoryEntry>): Option<HistoryEntry> {
    if history == [] then None
    else
      var last := history[|history| - 1];
      if IsRepairEntry(last.source, last.target) then Some(last) else CurrentRepairEntry(history[..|history| - 1])
  }

  function ImportedBy(reviews: seq<ReviewReceipt>, version: int): seq<ReviewReceipt> {
    if reviews == [] then []
    else
      var last := reviews[|reviews| - 1];
      ImportedBy(reviews[..|reviews| - 1], version) + if last.stateVersion <= version then [last] else []
  }

  /** The HEAD a repair starts from: the failure that opened it, or the review snapshot that authorised it. */
  function RepairBasis(history: seq<HistoryEntry>, receipts: seq<GateReceipt>, reviews: seq<ReviewReceipt>)
    : Option<Text>
  {
    var entry := CurrentRepairEntry(history);
    if entry.None? then None
    else if entry.value.source == Verifying then
      var failure := LatestFailure(receipts);
      if failure.Some? then Some(failure.value.headAfter) else None
    else
      var snapshot := NewestReview(ImportedBy(reviews, entry.value.fromVersion));
      if snapshot.Some? then Some(snapshot.value.subjectHeadSha) else None
  }

  function ImplementationBasisOf(proof: SessionProof, phase: Phase, history: seq<HistoryEntry>)
    : Option<ImplementationBasis>
  {
    var entry := LatestImplementationEntry(history);
    var review := if entry.Some? then ReadPrePrReviewEvidence(entry.value.input) else None;
    var failure := LatestFailure(proof.receipts);
    if proof.plan.None? then None
    else if review.Some? then Some(ImplementationBasis(review.value.headSha, PrePrReview))
    else if phase == PrePr && (proof.evidence == Failed || (entry.Some? && entry.value.source == Verifying))
            && failure.Some? && failure.value.headAfter != [] then
      Some(ImplementationBasis(failure.value.headAfter, FailedLocalProof))
    else Some(ImplementationBasis(proof.plan.value.baselineHeadSha, ProofPlanBaseline))
  }

  predicate CommittedSince(basis: Option<Text>, observed: Observation) {
    && basis.Some?
    && IsFullCommitSha(basis.value)
    && basis.value != observed.repository.headSha
    && observed.hasCommittedDiff(basis.value, observed.repository.headSha)
  }

  function BuildProofGuardContext(
    proof: SessionProof, observed: Observation, phase: Phase, history: seq<HistoryEntry>): GuardContext
  {
    var basis := ImplementationBasisOf(proof, phase, history);
    GuardContext(
      None, proof.plan, Some(proof.evidence), Some(proof.ci), Some(proof.review), Some(phase), basis,
      Some(RepositoryFacts(
             observed.repository.branch, observed.repository.headSha, observed.repository.clean,
             CommittedSince(if basis.Some? then Some(basis.value.headSha) else None, observed),
             CommittedSince(RepairBasis(history, proof.receipts, proof.signedReviews), observed))),
      Some(proof.attemptsUsed))
  }

  // ----- preparing the call

  function HistoryOf(codec: Codec, v: View): seq<HistoryEntry> {
    var rows := OrderBy(v.transitions, ToVersion);
    if forall i :: 0 <= i < |rows| ==> codec.parseInput(rows[i].inputJson).Some? then ToHistory(codec, rows) else []
  }

  /** The snapshots one preparation reads, each from its own moment. */
  datatype Snapshots = Snapshots(lifecycle: Option<View>, watermark: View, preliminary: View, evidence: View)

  function FullContext(codec: Codec, lifecycle: View, evidence: View, observed: Observation): GuardContext {
    BuildProofGuardContext(
      EvaluateSessionProof(evidence, Some(observed.repository.headSha), observed), observed, PhaseOf(lifecycle),
      HistoryOf(codec, lifecycle))
  }

  /** Without an evaluable plan the review guards see no repository at all. */
  function PlanlessContext(lifecycle: View, preliminary: View, observed: Observation): GuardContext {
    var proof := EvaluateSessionProof(preliminary, None, observed);
    EMPTY_CONTEXT.(
      evidence := Some(proof.evidence), ci := Some(proof.ci), review := Some(proof.review),
      phase := Some(PhaseOf(lifecycle)), attemptsUsed := Some(proof.attemptsUsed))
  }

  predicate BindsPlanNow(request: TransitionRequest, lifecycle: View) {
    && lifecycle.task.status == Framed
    && lifecycle.task.stateVersion == request.expectedVersion
    && request.target == ProofReady
  }

  predicate NeedsReview(request: TransitionRequest, lifecycle: View) {
    TransitionGuardRequirement(lifecycle.task.status, request.target) == ReviewGuard
  }

  predicate NeedsProof(request: TransitionRequest, lifecycle: View) {
    RequiresProofGuardContext(lifecycle.task.status, request.target)
  }

  /** The call `transitionSession` makes to the store; `known` is whether the idempotency key was already recorded. */
  function PrepareCall(
    codec: Codec, request: TransitionRequest, key: string, known: bool, taken: Snapshots, observed: Observation,
    prepared: PreparedPlan): TransitionCall
  {
    var bare := TransitionCall(request, key, None, None, UnderContext(EMPTY_CONTEXT));
    if known || taken.lifecycle.None? then bare
    else
      var lifecycle := taken.lifecycle.value;
      if BindsPlanNow(request, lifecycle) then
        match prepared
        case PlanReady(plan) =>
          bare.(boundPlan := Some(plan), guards := UnderContext(EMPTY_CONTEXT.(boundPlan := Some(plan))))
        case PlanRejected(failure) => bare.(guards := PreparedRejection(failure))
      else if NeedsReview(request, lifecycle) then
        bare.(
          watermark := Some(ReadWatermark(taken.watermark)),
          guards := UnderContext(
                      if EvaluateSessionProof(taken.preliminary, None, observed).plan.None?
                      then PlanlessContext(lifecycle, taken.preliminary, observed)
                      else FullContext(codec, lifecycle, taken.evidence, observed)))
      else if NeedsProof(request, lifecycle) then
        bare.(
          watermark := Some(ReadWatermark(taken.watermark)),
          guards := UnderContext(FullContext(codec, lifecycle, taken.evidence, observed)))
      else bare
  }

  /** The full context of one instant, field by field. */
  lemma ContextNow(codec: Codec, v: View, observed: Observation)
    requires v.plan.Some? && observed.planIntact
    ensures
      var context, head, plan := FullContext(codec, v, v, observed), Some(observed.repository.headSha), v.plan.value;
      && context.boundPlan.None? && context.plan == v.plan && context.phase == Some(PhaseOf(v))
      && context.evidence == Some(EvaluateProofEvidence(plan, v.gates, head, observed.inspection))
      && context.ci == Some(EvaluateCiProofEvidence(plan, v.signedGates, head, observed.inspection))
      && context.review == Some(EvaluateReviewEvidence(plan, v.reviews, head, observed.inspection))
      && context.attemptsUsed == Some(RepairCount(v.transitions))
      && context.basis
         == ImplementationBasisOf(EvaluateSessionProof(v, head, observed), PhaseOf(v), HistoryOf(codec, v))
      && context.repository.Some?
      && context.repository.value.branch == observed.repository.branch
      && context.repository.value.headSha == observed.repository.headSha
      && context.repository.value.clean == observed.repository.clean
      && context.repository.value.committedImplementationFromBasis
         == CommittedSince(if context.basis.Some? then Some(context.basis.value.headSha) else None, observed)
  {
    hide EvaluateProofEvidence, EvaluateCiProofEvidence, EvaluateReviewEvidence, ImplementationBasisOf, RepairBasis,
      PhaseOf, HistoryOf, CommittedSince;
  }

  // ----- the repair basis does not move

  lemma {:induction false} ImportedByAppend(reviews: seq<ReviewReceipt>, more: seq<ReviewReceipt>, version: int)
    ensures ImportedBy(reviews + more, version) == ImportedBy(reviews, version) + ImportedBy(more, version)
  {
    if more == [] {
      assert reviews + more == reviews;
    } else {
      var n := |more| - 1;
      ImportedByAppend(reviews, more[..n], version);
      assert (reviews + more)[..|reviews + more| - 1] == reviews + more[..n];
    }
  }

  lemma {:induction false} ImportedBySplits(reviews: seq<ReviewReceipt>, version: int)
    ensures (forall r :: r in reviews ==> r.stateVersion <= version) ==> ImportedBy(reviews, version) == reviews
    ensures (forall r :: r in reviews ==> r.stateVersion > version) ==> ImportedBy(reviews, version) == []
  {
    if reviews != [] {
      var n := |reviews| - 1;
      ImportedBySplits(reviews[..n], version);
      assert reviews == reviews[..n] + [reviews[n]];
      assert forall r :: r in reviews <==> r in reviews[..n] || r == reviews[n];
    }
  }

  lemma {:induction false} RepairEntrySurvives(history: seq<HistoryEntry>, more: seq<HistoryEntry>)
    requires forall e :: e in more ==> !IsRepairEntry(e.source, e.target)
    ensures CurrentRepairEntry(history + more) == CurrentRepairEntry(history)
  {
    if more == [] {
      assert history + more == history;
    } else {
      var n := |more| - 1;
      RepairEntrySurvives(history, more[..n]);
      assert (history + more)[..|history + more| - 1] == history + more[..n];
    }
  }

  /**
   * A repair opened by a review keeps its basis: the newest snapshot imported when the entry was admitted. Imports
   * made after the entry carry later state versions, and blocking and recovering is not a repair entry, so neither
   * moves the basis.
   */
  lemma ReviewRepairBasisIsStable(
    history: seq<HistoryEntry>, entry: HistoryEntry, more: seq<HistoryEntry>,
    receipts: seq<GateReceipt>, authorising: seq<ReviewReceipt>, imported: seq<ReviewReceipt>)
    requires IsRepairEntry(entry.source, entry.target) && entry.source != Verifying
    requires forall e :: e in more ==> !IsRepairEntry(e.source, e.target)
    requires forall r :: r in authorising ==> r.stateVersion <= entry.fromVersion
    requires forall r :: r in imported ==> r.stateVersion > entry.fromVersion
    ensures
      var newest := NewestReview(authorising);
      RepairBasis(history + [entry] + more, receipts, authorising + imported)
      == if newest.Some? then Some(newest.value.subjectHeadSha) else None
  {
    RepairEntrySurvives(history + [entry], more);
    ImportedByAppend(authorising, imported, entry.fromVersion);
    ImportedBySplits(authorising, entry.fromVersion);
    ImportedBySplits(imported, entry.fromVersion);
    assert authorising + [] == authorising;
  }

  // ----- a repair can be stranded

  /** A gate ran to completion on one commit, and did not pass. */
  predicate FailedOnOneCommit(receipt: GateReceipt) {
    receipt.result !in {GatePassed, GateInvalidated, GateSetupFailed} && receipt.headBefore == receipt.headAfter
  }

  lemma {:induction false} LatestFailureIsExact(receipts: seq<GateReceipt>)
    ensures LatestFailure(receipts).Some? <==> exists r :: r in receipts && FailedOnOneCommit(r)
    ensures LatestFailure(receipts).Some? ==>
              LatestFailure(receipts).value in receipts && FailedOnOneCommit(LatestFailure(receipts).value)
  {
    if receipts != [] {
      var n := |receipts| - 1;
      LatestFailureIsExact(receipts[..n]);
      assert receipts == receipts[..n] + [receipts[n]];
    }
  }

  /** An invalidated run makes the evidence `failed`, yet it is no commit to resume from. */
  lemma InvalidatedRunFailsWithoutBasis(plan: BoundPlan, receipt: GateReceipt, head: Text, inspection: Inspection)
    requires plan.gates == [receipt.gateId] && receipt.result == GateInvalidated && receipt.planSha256 == plan.sha256
    requires receipt.headBefore == head && receipt.headAfter == head && head != [] && receipt.id in inspection.payloads
    ensures EvaluateProofEvidence(plan, [receipt], Some(head), inspection) == Failed
    ensures LatestFailure([receipt]).None?
  {
    hide Latest, LatestFailure;
    LatestIsNewest([receipt], GateOf, GateSequence, receipt.gateId);
    assert GateOf(receipt) == receipt.gateId && receipt in [receipt];
    var statuses := GateStatuses(plan, [receipt], Some(head), inspection);
    assert |statuses| == 1 && statuses[0] == Failed;
    LatestFailureIsExact([receipt]);
  }

  lemma RepairGuard(input: Json, proof: GuardContext)
    ensures EvaluateTransitionGuards(Repairing, Verifying, input, None, proof).GuardsAllowed? <==>
            && Field(input, "pre_pr_review").None?
            && proof.plan.Some? && proof.repository.Some?
            && OnPlanBranch(proof.plan.value, proof.repository.value)
            && proof.repository.value.committedRepairFromFailure
  {
    hide HasBlockEvidence, HasRecoveryEvidence, AreFindings;
  }

  lemma RepairFacts(proof: SessionProof, observed: Observation, phase: Phase, history: seq<HistoryEntry>)
    ensures
      var context := BuildProofGuardContext(proof, observed, phase, history);
      && context.plan == proof.plan && context.repository.Some?
      && context.repository.value.branch == observed.repository.branch
      && context.repository.value.clean == observed.repository.clean
      && context.repository.value.committedRepairFromFailure
         == CommittedSince(RepairBasis(history, proof.receipts, proof.signedReviews), observed)
  {
    hide ImplementationBasisOf, RepairBasis, CommittedSince;
  }

  lemma ProofFacts(v: View, head: Option<Text>, observed: Observation)
    ensures
      var proof := EvaluateSessionProof(v, head, observed);
      && proof.plan == (if observed.planIntact then v.plan else None)
      && proof.receipts == v.gates && proof.signedReviews == v.reviews
  {
    hide EvaluateProofEvidence, EvaluateCiProofEvidence, EvaluateReviewEvidence;
  }

  /**
   * A repair opened by failed local proof is left for `verifying` exactly when, from the plan's clean branch, something
   * was committed since the newest gate that really failed on one commit. Without such a gate it is not left at all.
   */
  lemma RepairLeavesExactly(codec: Codec, lifecycle: View, evidence: View, observed: Observation, input: Json)
    requires
      var entry := CurrentRepairEntry(HistoryOf(codec, lifecycle));
      entry.Some? && entry.value.source == Verifying
    ensures
      EvaluateTransitionGuards(
        Repairing, Verifying, input, None, FullContext(codec, lifecycle, evidence, observed)).GuardsAllowed?
      <==>
      && Field(input, "pre_pr_review").None?
      && evidence.plan.Some? && observed.planIntact
      && observed.repository.clean && observed.repository.branch == Some(evidence.plan.value.baselineBranch)
      && LatestFailure(evidence.gates).Some?
      && CommittedSince(Some(LatestFailure(evidence.gates).value.headAfter), observed)
  {
    hide HistoryOf, EvaluateTransitionGuards, EvaluateSessionProof, IsFullCommitSha, LatestFailure,
      CurrentRepairEntry, BuildProofGuardContext;
    var context := FullContext(codec, lifecycle, evidence, observed);
    RepairGuard(input, context);
    var proof := EvaluateSessionProof(evidence, Some(observed.repository.headSha), observed);
    RepairFacts(proof, observed, PhaseOf(lifecycle), HistoryOf(codec, lifecycle));
    ProofFacts(evidence, Some(observed.repository.headSha), observed);
  }
}

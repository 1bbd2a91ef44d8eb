/**
 * Serviced runs from the empty store: one that completes, one that repairs a session any number of times, one that
 * strands it in a repair, and one that leaves such a repair all the same. They go through the service and the store
 * alone; the checkout, the gates, the packages and the reviews are what the world shows.
 */
module Journeys {
  import opened Options
  import opened JsonValues
  import opened Lifecycle
  import opened SessionTransition
  import opened ProofEvidence
  import Rows
  import opened StoreTables
  import opened SessionStore
  import opened StoreInvariant
  import opened StoreSteps
  import opened StoreRuns
  import opened SessionService
  import opened ServiceRuns
  import opened StrandedRepairs
  import opened Courses
  import opened RecordedEvidence
  import opened StaleRepairs

  const SESSION := "session"

  /** A plan with one gate that asks for signed CI and signed review, and the commits of one pull request. */
  ghost predicate Planned(plan: BoundPlan, gate: string, one: Text, two: Text, three: Text) {
    && plan.gates == [gate] && plan.signedCi && plan.signedReview
    && IsFullCommitSha(plan.baselineHeadSha) && IsFullCommitSha(one) && IsFullCommitSha(two)
    && plan.baselineHeadSha != one && one != two && one != three && two != three
  }

  /** A clean checkout of the plan's branch at `head`, where every commit differs from every other. */
  function See(plan: BoundPlan, head: Text, inspection: Inspection): Observation {
    Observation(
      Repository(Some(plan.baselineBranch), head, true), true, inspection,
      (from: Text, to: Text) => from != to)
  }

  const NOTHING := Inspection(map[], {}, {})

  /** The request carries a clean pre-PR review of `head`. */
  predicate CleanReviewOf(input: Json, head: Text) {
    var review := ReadPrePrReviewEvidence(input);
    review.Some? && review.value.outcome == Clean && review.value.headSha == head
  }

  function Name(text: string): Json {
    Str(Ascii(text))
  }

  /** One such review, and a request that carries it. */
  function CleanReview(head: Text): Json {
    Obj(map[
      Ascii("outcome") := Name("clean"),
      Ascii("head_sha") := Str(head),
      Ascii("evidence_ref") := Name("r"),
      Ascii("evidence_sha256") := Str(seq(64, _ => 0x30)),
      Ascii("findings") := Arr([])])
  }

  function CleanInput(head: Text): Json {
    Obj(map[Ascii("pre_pr_review") := CleanReview(head)])
  }

  lemma CleanReviewFields(head: Text)
    ensures TextField(CleanReview(head), "outcome") == Some(Ascii("clean"))
    ensures TextField(CleanReview(head), "head_sha") == Some(head)
    ensures TextField(CleanReview(head), "evidence_ref") == Some(Ascii("r"))
    ensures TextField(CleanReview(head), "evidence_sha256") == Some(seq(64, _ => 0x30))
    ensures Field(CleanReview(head), "findings") == Some(Arr([]))
  {
    assert |Ascii("outcome")| == 7 && |Ascii("head_sha")| == 8 && |Ascii("evidence_ref")| == 12;
    assert |Ascii("evidence_sha256")| == 15 && |Ascii("findings")| == 8;
    assert Ascii("head_sha")[0] == 0x68 && Ascii("findings")[0] == 0x66;
  }

  lemma CleanInputIsClean(head: Text)
    requires IsFullCommitSha(head)
    ensures CleanReviewOf(CleanInput(head), head)
  {
    hide TextField, Field;
    CleanReviewFields(head);
    assert Field(CleanInput(head), "pre_pr_review") == Some(CleanReview(head)) by { ReviewField(head); }
    assert |Ascii("changes_required")| == 16 && |Ascii("clean")| == 5;
    assert Ascii("r") == [0x72];
    assert head[0] in head && head[39] in head;
    assert AreFindings([]) && ToFindings([]) == [];
  }

  lemma ReviewField(head: Text)
    ensures Field(CleanInput(head), "pre_pr_review") == Some(CleanReview(head))
  {
  }

  // ----- what the evidence amounts to

  lemma LastGateDecides(
    plan: BoundPlan, receipts: seq<GateReceipt>, last: GateReceipt, head: Text, inspection: Inspection)
    requires plan.gates == [last.gateId] && forall r :: r in receipts ==> r.sequence < last.sequence
    ensures EvaluateProofEvidence(plan, receipts + [last], Some(head), inspection)
            == GateStatus(plan, Some(last), Some(head), inspection)
  {
    hide Latest, GateStatus;
    var all := receipts + [last];
    LatestIsNewest(all, GateOf, GateSequence, last.gateId);
    assert all[|receipts|] == last;
    assert GateOf(last) == last.gateId && last in all;
    var newest := Latest(all, GateOf, GateSequence, last.gateId).value;
    assert GateSequence(last) <= GateSequence(newest);
    assert newest == last;
    var statuses := GateStatuses(plan, all, Some(head), inspection);
    assert |statuses| == 1 && statuses[0] == GateStatus(plan, Some(last), Some(head), inspection);
  }

  lemma OnlyPackageDecides(plan: BoundPlan, package: SignedGateReceipt, head: Text, inspection: Inspection)
    requires plan.gates == [package.gateId] && plan.signedCi && package.id in inspection.verifiedCi
    requires package.planSha256 == plan.sha256 && package.subjectHeadSha == head && head != []
    ensures EvaluateCiProofEvidence(plan, [package], Some(head), inspection) == CiPassed
  {
    hide Latest;
    LatestIsNewest([package], SignedGateOf, SignedGateSequence, package.gateId);
    assert SignedGateOf(package) == package.gateId && package in [package];
  }

  lemma NoReceiptIsMissing(plan: BoundPlan, gate: string, head: Text, inspection: Inspection)
    requires plan.gates == [gate]
    ensures EvaluateProofEvidence(plan, [], Some(head), inspection) == Missing
  {
    hide Latest;
    LatestIsNewest([], GateOf, GateSequence, gate);
    var statuses := GateStatuses(plan, [], Some(head), inspection);
    assert |statuses| == 1 && statuses[0] == Missing;
  }

  // ----- to `verifying`

  lemma ImplementingAllowed(codec: Codec, v: View, plan: BoundPlan)
    requires v.task.status == ProofReady && v.plan == Some(plan)
    ensures EvaluateTransitionGuards(
              ProofReady, Implementing, EMPTY_INPUT, None,
              FullContext(codec, v, v, See(plan, plan.baselineHeadSha, NOTHING))).GuardsAllowed?
  {
    hide FullContext, PhaseOf, EvaluateTransitionGuards, EvaluateProofEvidence, EvaluateCiProofEvidence,
      EvaluateReviewEvidence;
    var observed := See(plan, plan.baselineHeadSha, NOTHING);
    ContextNow(codec, v, observed);
    EmptyInputGuards(ProofReady, Implementing, None, FullContext(codec, v, v, observed));
  }

  /** The first implementation starts from the plan's baseline. */
  lemma BaselineIsBasis(codec: Codec, v: View, plan: BoundPlan, gate: string, head: Text, entry: HistoryEntry)
    requires v.plan == Some(plan) && plan.gates == [gate] && v.gates == []
    requires HistoryOf(codec, v) != [] && HistoryOf(codec, v)[|HistoryOf(codec, v)| - 1] == entry
    requires entry.source == ProofReady && entry.target == Implementing && entry.input == EMPTY_INPUT
    ensures
      ImplementationBasisOf(
        EvaluateSessionProof(v, Some(head), See(plan, head, NOTHING)), PhaseOf(v), HistoryOf(codec, v))
      == Some(ImplementationBasis(plan.baselineHeadSha, ProofPlanBaseline))
  {
    hide HistoryOf, PhaseOf, EvaluateProofEvidence, EvaluateCiProofEvidence, EvaluateReviewEvidence, LatestFailure;
    EmptyInputCarriesNothing();
    NoReceiptIsMissing(plan, gate, head, NOTHING);
  }

  lemma VerifyingAllowed(codec: Codec, v: View, plan: BoundPlan, gate: string, head: Text, entry: HistoryEntry)
    requires v.plan == Some(plan) && plan.gates == [gate] && v.gates == []
    requires IsFullCommitSha(plan.baselineHeadSha) && head != plan.baselineHeadSha
    requires HistoryOf(codec, v) != [] && HistoryOf(codec, v)[|HistoryOf(codec, v)| - 1] == entry
    requires entry.source == ProofReady && entry.target == Implementing && entry.input == EMPTY_INPUT
    ensures EvaluateTransitionGuards(
              Implementing, Verifying, EMPTY_INPUT, None,
              FullContext(codec, v, v, See(plan, head, NOTHING))).GuardsAllowed?
  {
    hide FullContext, PhaseOf, EvaluateTransitionGuards, EvaluateSessionProof, HistoryOf, ImplementationBasisOf,
      EvaluateProofEvidence, EvaluateCiProofEvidence, EvaluateReviewEvidence;
    BaselineIsBasis(codec, v, plan, gate, head, entry);
    ContextNow(codec, v, See(plan, head, NOTHING));
    EmptyInputGuards(Implementing, Verifying, None, FullContext(codec, v, v, See(plan, head, NOTHING)));
  }

  /** Verifying for the first time, with no evidence yet. */
  ghost predicate FirstVerifying(v: View, plan: BoundPlan) {
    && v.task == TaskRow(Verifying, 4, None) && v.plan == Some(plan) && |v.audit| == 9
    && v.gates == [] && v.signedGates == [] && v.reviews == []
    && RepairCount(v.transitions) == 0 && PhaseOf(v) == PrePr
  }

  /** Where a transition leaves the session, and the entry it adds to the history. */
  lemma Arrived(codec: Codec, v: View, target: TaskStatus, input: Json, w: View)
    requires Went(codec, v, target, input, w) && target != Blocked
    ensures w.task == TaskRow(target, v.task.stateVersion + 1, None) && |w.audit| == |v.audit| + 2
    ensures w.gates == v.gates && w.signedGates == v.signedGates && w.reviews == v.reviews
    ensures RepairCount(w.transitions)
            == RepairCount(v.transitions) + if IsRepairEntry(v.task.status, target) then 1 else 0
    ensures PhaseOf(w) == if target in POST_PR_STATES then PostPr else PhaseOf(v)
    ensures HistoryOf(codec, w) != []
    ensures
      var entry := HistoryOf(codec, w)[|HistoryOf(codec, w)| - 1];
      && entry.source == v.task.status && entry.target == target && entry.input == input
      && entry.fromVersion == v.task.stateVersion
  {
    hide HistoryOf, RepairCount, PhaseOf;
  }

  lemma ReachProofReady(codec: Codec, plan: BoundPlan) returns (c: Course, v: View)
    requires Deployment(codec, 9)
    ensures Stands(codec, c, SESSION, v) && Prompted(c.steps, c.preparations)
    ensures v.task == TaskRow(ProofReady, 2, None) && v.plan == Some(plan) && |v.audit| == 5
    ensures v.gates == [] && v.signedGates == [] && v.reviews == []
    ensures RepairCount(v.transitions) == 0 && PhaseOf(v) == PrePr
  {
    hide Stands, Deployment, Ample, HistoryOf, RepairCount, PhaseOf, Prompted, Went;
    DeploymentIsLawful(codec, 9);
    var b, u := Begin(codec, "task", SESSION);
    DeploymentIsAmple(codec, 9, u, 2);
    var f, framed := Frame(codec, b, SESSION, u);
    Arrived(codec, u, Framed, EMPTY_INPUT, framed);
    DeploymentIsAmple(codec, 9, framed, 2);
    c, v := BindPlan(codec, f, SESSION, framed, plan);
    Arrived(codec, framed, ProofReady, EMPTY_INPUT, v);
  }

  lemma ReachVerifying(codec: Codec, plan: BoundPlan, gate: string, head: Text) returns (c: Course, v: View)
    requires Deployment(codec, 9) && plan.gates == [gate]
    requires IsFullCommitSha(plan.baselineHeadSha) && head != plan.baselineHeadSha
    ensures Stands(codec, c, SESSION, v) && Prompted(c.steps, c.preparations) && FirstVerifying(v, plan)
  {
    hide Stands, Deployment, Ample, HistoryOf, RepairCount, PhaseOf, FullContext, EvaluateTransitionGuards, Prompted,
      Went;
    var r, ready := ReachProofReady(codec, plan);
    DeploymentIsAmple(codec, 9, ready, 2);
    ImplementingAllowed(codec, ready, plan);
    var i, implementing :=
      GoProof(codec, r, SESSION, ready, Implementing, EMPTY_INPUT, See(plan, plan.baselineHeadSha, NOTHING));
    Arrived(codec, ready, Implementing, EMPTY_INPUT, implementing);
    DeploymentIsAmple(codec, 9, implementing, 2);
    var history := HistoryOf(codec, implementing);
    VerifyingAllowed(codec, implementing, plan, gate, head, history[|history| - 1]);
    c, v := GoProof(codec, i, SESSION, implementing, Verifying, EMPTY_INPUT, See(plan, head, NOTHING));
    Arrived(codec, implementing, Verifying, EMPTY_INPUT, v);
  }

  // ----- into review

  /** Every gate and every package of the plan passes at `head`, and a clean review of `head` is in `input`. */
  ghost predicate Proven(v: View, plan: BoundPlan, head: Text, inspection: Inspection) {
    && v.plan == Some(plan) && head != []
    && EvaluateProofEvidence(plan, v.gates, Some(head), inspection) == Passed
    && EvaluateCiProofEvidence(plan, v.signedGates, Some(head), inspection) == CiPassed
  }

  lemma ReviewingPrePrAllowed(codec: Codec, v: View, plan: BoundPlan, head: Text, inspection: Inspection)
    requires Proven(v, plan, head, inspection) && PhaseOf(v) == PrePr
    ensures EvaluateTransitionGuards(
              Verifying, PrePrReviewing, EMPTY_INPUT, None,
              FullContext(codec, v, v, See(plan, head, inspection))).GuardsAllowed?
  {
    hide FullContext, PhaseOf, EvaluateTransitionGuards, EvaluateProofEvidence, EvaluateCiProofEvidence,
      EvaluateReviewEvidence;
    ContextNow(codec, v, See(plan, head, inspection));
    EmptyInputGuards(Verifying, PrePrReviewing, None, FullContext(codec, v, v, See(plan, head, inspection)));
  }

  lemma CleanEntryAllowed(codec: Codec, v: View, plan: BoundPlan, head: Text, inspection: Inspection, input: Json)
    requires Proven(v, plan, head, inspection) && PhaseOf(v) == PrePr && CleanReviewOf(input, head)
    ensures EvaluateTransitionGuards(
              PrePrReviewing, Reviewing, input, None,
              FullContext(codec, v, v, See(plan, head, inspection))).GuardsAllowed?
  {
    hide FullContext, PhaseOf, EvaluateProofEvidence, EvaluateCiProofEvidence, EvaluateReviewEvidence,
      ReadPrePrReviewEvidence, Field, HasBlockEvidence, HasRecoveryEvidence;
    ContextNow(codec, v, See(plan, head, inspection));
  }

  /** In review for the first time, with one passing gate and one package at `head`. */
  ghost predicate FirstReview(v: View, plan: BoundPlan, head: Text, gate: GateReceipt, package: SignedGateReceipt) {
    && v.task == TaskRow(Reviewing, 6, None) && v.plan == Some(plan) && |v.audit| == 15
    && v.gates == [gate] && v.signedGates == [package] && v.reviews == []
    && plan.gates == [gate.gateId] && gate.result == GatePassed && gate.planSha256 == plan.sha256
    && gate.headBefore == head && gate.headAfter == head
    && package.gateId == gate.gateId && package.planSha256 == plan.sha256 && package.subjectHeadSha == head
    && RepairCount(v.transitions) == 0 && PhaseOf(v) == PostPr
  }

  /** The artifacts of the gates that ran, the package and the snapshots are all still there. */
  function Intact(gates: seq<GateReceipt>, package: SignedGateReceipt, reviews: set<string>): Inspection {
    Inspection(map r | r in gates :: r.id := ReceiptPayload(true, true), {package.id}, reviews)
  }

  lemma PassedIsProven(
    v: View, plan: BoundPlan, head: Text, gate: GateReceipt, package: SignedGateReceipt,
    reviews: set<string>)
    requires v.plan == Some(plan) && plan.signedCi && plan.gates == [gate.gateId] && head != []
    requires v.gates == [gate] && v.signedGates == [package]
    requires gate.result == GatePassed && gate.planSha256 == plan.sha256
    requires gate.headBefore == head && gate.headAfter == head
    requires package.gateId == gate.gateId && package.planSha256 == plan.sha256 && package.subjectHeadSha == head
    ensures Proven(v, plan, head, Intact([gate], package, reviews))
  {
    hide EvaluateProofEvidence, EvaluateCiProofEvidence;
    var inspection := Intact([gate], package, reviews);
    assert [] + [gate] == [gate];
    assert gate in [gate] && gate.id in Intact([gate], package, reviews).payloads;
    LastGateDecides(plan, [], gate, head, inspection);
    OnlyPackageDecides(plan, package, head, inspection);
  }

  lemma EnterReview(
    codec: Codec, c: Course, v: View, plan: BoundPlan, head: Text, passed: GateReceipt, package: SignedGateReceipt,
    input: Json)
    returns (d: Course, w: View)
    requires Stands(codec, c, SESSION, v) && Deployment(codec, 15) && |v.audit| == 11 && CleanReviewOf(input, head)
    requires v.task == TaskRow(Verifying, 4, None) && PhaseOf(v) == PrePr
    requires v.plan == Some(plan) && plan.signedCi && plan.gates == [passed.gateId] && head != []
    requires v.gates == [passed] && v.signedGates == [package]
    requires passed.result == GatePassed && passed.planSha256 == plan.sha256
    requires passed.headBefore == head && passed.headAfter == head
    requires package.gateId == passed.gateId && package.planSha256 == plan.sha256 && package.subjectHeadSha == head
    ensures Stands(codec, d, SESSION, w) && (Prompted(c.steps, c.preparations) ==> Prompted(d.steps, d.preparations))
    ensures w.task == TaskRow(Reviewing, 6, None) && w.plan == v.plan && |w.audit| == 15 && PhaseOf(w) == PostPr
    ensures w.gates == v.gates && w.signedGates == v.signedGates && w.reviews == v.reviews
    ensures RepairCount(w.transitions) == RepairCount(v.transitions)
  {
    hide Stands, Deployment, Ample, HistoryOf, RepairCount, PhaseOf, FullContext, EvaluateTransitionGuards, Prompted,
      Went, Proven, CleanReviewOf;
    var inspection := Intact([passed], package, {});
    PassedIsProven(v, plan, head, passed, package, {});
    ReviewingPrePrAllowed(codec, v, plan, head, inspection);
    DeploymentIsAmple(codec, 15, v, 2);
    var b, reviewing := GoProof(codec, c, SESSION, v, PrePrReviewing, EMPTY_INPUT, See(plan, head, inspection));
    Arrived(codec, v, PrePrReviewing, EMPTY_INPUT, reviewing);
    PassedIsProven(reviewing, plan, head, passed, package, {});
    CleanEntryAllowed(codec, reviewing, plan, head, inspection, input);
    DeploymentIsAmple(codec, 15, reviewing, 2);
    d, w := GoProof(codec, b, SESSION, reviewing, Reviewing, input, See(plan, head, inspection));
    Arrived(codec, reviewing, Reviewing, input, w);
  }

  lemma ReachReviewing(codec: Codec, plan: BoundPlan, gate: string, head: Text, input: Json)
    returns (c: Course, v: View, passed: GateReceipt, package: SignedGateReceipt)
    requires Deployment(codec, 15) && plan.gates == [gate] && plan.signedCi
    requires IsFullCommitSha(plan.baselineHeadSha) && head != [] && head != plan.baselineHeadSha
    requires CleanReviewOf(input, head)
    ensures Stands(codec, c, SESSION, v) && Prompted(c.steps, c.preparations)
    ensures FirstReview(v, plan, head, passed, package)
  {
    hide Stands, Deployment, Ample, HistoryOf, RepairCount, PhaseOf, FullContext, EvaluateTransitionGuards, Prompted,
      Went, Proven, CleanReviewOf;
    DeploymentLess(codec, 15, 9);
    var a, verifying := ReachVerifying(codec, plan, gate, head);
    DeploymentIsAmple(codec, 15, verifying, 1);
    var b, proved;
    b, proved, passed := TakeGate(
      codec, a, SESSION, verifying, GateReceipt(0, "", gate, plan.sha256, head, head, GatePassed, 4));
    DeploymentIsAmple(codec, 15, proved, 1);
    var e, signed;
    e, signed, package := TakeSignedGate(
      codec, b, SESSION, proved, SignedGateReceipt(0, "", gate, plan.sha256, head, "", 4));
    c, v := EnterReview(codec, e, signed, plan, head, passed, package, input);
  }

  // ----- to completion

  /** What the guards make of the only snapshot, when it is of the live HEAD. */
  lemma OnlySnapshotDecides(plan: BoundPlan, snapshot: ReviewReceipt, head: Text, inspection: Inspection)
    requires plan.signedReview && snapshot.planSha256 == plan.sha256 && snapshot.id in inspection.verifiedReviews
    requires snapshot.subjectHeadSha == head && head != [] && snapshot.threads == []
    ensures EvaluateReviewEvidence(plan, [snapshot], Some(head), inspection)
            == ReviewEvidence(
                 ReviewCurrent, Some(snapshot.id), Some(head), snapshot.decision, [], snapshot.approvals,
                 snapshot.merged)
  {
    assert NewestReview([snapshot]) == Some(snapshot);
  }

  lemma MergedGuards(source: TaskStatus, target: TaskStatus, context: GuardContext, head: Text)
    requires (source, target) in {(Reviewing, ReadyForHuman), (ReadyForHuman, Completed)} && head != []
    requires context.evidence == Some(Passed) && context.ci == Some(CiPassed) && LiveHead(context) == Some(head)
    requires context.review.Some?
    requires
      var review := context.review.value;
      && review.status == ReviewCurrent && review.headSha == Some(head) && review.decision == Some(Approved)
      && review.blockingFindings == [] && review.approvals == [Approval(USER, head)] && review.merged
    ensures EvaluateTransitionGuards(source, target, EMPTY_INPUT, None, context).GuardsAllowed?
  {
    hide EvaluateTransitionGuards, EvaluateProofOwnedGuards;
    assert Approval(USER, head) in context.review.value.approvals;
    EmptyInputGuards(source, target, None, context);
  }

  lemma MergedAllowed(
    codec: Codec, v: View, plan: BoundPlan, head: Text, inspection: Inspection, source: TaskStatus, target: TaskStatus)
    requires Proven(v, plan, head, inspection)
    requires (source, target) in {(Reviewing, ReadyForHuman), (ReadyForHuman, Completed)}
    requires
      var review := EvaluateReviewEvidence(plan, v.reviews, Some(head), inspection);
      && review.status == ReviewCurrent && review.headSha == Some(head) && review.decision == Some(Approved)
      && review.blockingFindings == [] && review.approvals == [Approval(USER, head)] && review.merged
    ensures EvaluateTransitionGuards(
              source, target, EMPTY_INPUT, None, FullContext(codec, v, v, See(plan, head, inspection))).GuardsAllowed?
  {
    hide FullContext, PhaseOf, EvaluateTransitionGuards, EvaluateProofEvidence, EvaluateCiProofEvidence,
      EvaluateReviewEvidence;
    ContextNow(codec, v, See(plan, head, inspection));
    MergedGuards(source, target, FullContext(codec, v, v, See(plan, head, inspection)), head);
  }

  /** One step on the way out of review, at a HEAD that was approved and merged. */
  lemma GoMerged(
    codec: Codec, c: Course, v: View, plan: BoundPlan, head: Text, passed: GateReceipt, package: SignedGateReceipt,
    snapshot: ReviewReceipt, target: TaskStatus)
    returns (d: Course, w: View)
    requires Stands(codec, c, SESSION, v) && Ample(codec, v, 2)
    requires (v.task.status, target) in {(Reviewing, ReadyForHuman), (ReadyForHuman, Completed)}
    requires v.task.blockedFrom.None? && v.plan == Some(plan) && plan.signedCi && plan.signedReview
    requires plan.gates == [passed.gateId] && head != []
    requires v.gates == [passed] && v.signedGates == [package] && v.reviews == [snapshot]
    requires passed.result == GatePassed && passed.planSha256 == plan.sha256
    requires passed.headBefore == head && passed.headAfter == head
    requires package.gateId == passed.gateId && package.planSha256 == plan.sha256 && package.subjectHeadSha == head
    requires snapshot.planSha256 == plan.sha256 && snapshot.subjectHeadSha == head && snapshot.threads == []
    requires snapshot.decision == Some(Approved) && snapshot.approvals == [Approval(USER, head)] && snapshot.merged
    ensures Stands(codec, d, SESSION, w) && Onward(c, d) && Went(codec, v, target, EMPTY_INPUT, w) && w.plan == v.plan
  {
    hide Stands, Ample, HistoryOf, RepairCount, PhaseOf, FullContext, EvaluateTransitionGuards, Prompted, Went,
      Proven, EvaluateReviewEvidence;
    var inspection := Intact([passed], package, {snapshot.id});
    OnlySnapshotDecides(plan, snapshot, head, inspection);
    PassedIsProven(v, plan, head, passed, package, {snapshot.id});
    MergedAllowed(codec, v, plan, head, inspection, v.task.status, target);
    d, w := GoReviewed(codec, c, SESSION, v, target, See(plan, head, inspection));
  }

  /**
   * A serviced run from the empty store completes: a plan, an implementation, a passing gate and package, a clean
   * pre-PR review, and an approved and merged pull request, with every caller expecting the version it was shown.
   */
  lemma CompletionIsServed(codec: Codec, plan: BoundPlan, gate: string, head: Text) returns (c: Course, v: View)
    requires Deployment(codec, 20) && plan.gates == [gate] && plan.signedCi && plan.signedReview
    requires IsFullCommitSha(plan.baselineHeadSha) && IsFullCommitSha(head) && head != plan.baselineHeadSha
    ensures Stands(codec, c, SESSION, v) && Prompted(c.steps, c.preparations) && v.task.status == Completed
  {
    hide Stands, Deployment, Ample, HistoryOf, RepairCount, PhaseOf, Prompted, Went, CleanReviewOf, CleanInput;
    DeploymentLess(codec, 20, 15);
    CleanInputIsClean(head);
    var a, reviewing, passed, package := ReachReviewing(codec, plan, gate, head, CleanInput(head));
    DeploymentIsAmple(codec, 20, reviewing, 1);
    var b, reviewed, snapshot := TakeReview(
      codec, a, SESSION, reviewing,
      ReviewReceipt(0, "", plan.sha256, 1, head, "", 0, Some(Approved), [], [Approval(USER, head)], true, 6));
    assert reviewed.reviews == [snapshot];
    DeploymentIsAmple(codec, 20, reviewed, 2);
    var e, ready := GoMerged(codec, b, reviewed, plan, head, passed, package, snapshot, ReadyForHuman);
    Arrived(codec, reviewed, ReadyForHuman, EMPTY_INPUT, ready);
    DeploymentIsAmple(codec, 20, ready, 2);
    c, v := GoMerged(codec, e, ready, plan, head, passed, package, snapshot, Completed);
    Arrived(codec, ready, Completed, EMPTY_INPUT, v);
  }

  // ----- to a first repair

  lemma ChangesAllowed(codec: Codec, v: View, plan: BoundPlan, head: Text, inspection: Inspection)
    requires v.plan == Some(plan) && head != [] && RepairCount(v.transitions) == 0
    requires
      var review := EvaluateReviewEvidence(plan, v.reviews, Some(head), inspection);
      review.status == ReviewCurrent && review.headSha == Some(head) && review.decision == Some(ChangesRequested)
    ensures EvaluateTransitionGuards(
              Reviewing, Repairing, EMPTY_INPUT, None,
              FullContext(codec, v, v, See(plan, head, inspection))).GuardsAllowed?
  {
    hide FullContext, PhaseOf, EvaluateTransitionGuards, EvaluateProofEvidence, EvaluateCiProofEvidence,
      EvaluateReviewEvidence, RepairCount;
    ContextNow(codec, v, See(plan, head, inspection));
    EmptyInputGuards(Reviewing, Repairing, None, FullContext(codec, v, v, See(plan, head, inspection)));
  }

  /** Repairing what the only review snapshot asked for, with one passing gate on record. */
  ghost predicate FirstRepair(codec: Codec, v: View, plan: BoundPlan, head: Text, passed: GateReceipt) {
    && v.task == TaskRow(Repairing, 7, None) && v.plan == Some(plan) && |v.audit| == 18 && v.gates == [passed]
    && passed.result == GatePassed && passed.gateId in plan.gates
    && RepairCount(v.transitions) == 1 && PhaseOf(v) == PostPr
    && (exists snapshot: ReviewReceipt :: v.reviews == [snapshot] && snapshot.subjectHeadSha == head
                                          && snapshot.stateVersion == 6)
    && var entry := CurrentRepairEntry(HistoryOf(codec, v));
       entry.Some? && entry.value.source == Reviewing && entry.value.fromVersion == 6
  }

  lemma ReachRepairing(codec: Codec, plan: BoundPlan, gate: string, head: Text, input: Json)
    returns (c: Course, v: View, passed: GateReceipt)
    requires Deployment(codec, 18) && plan.gates == [gate] && plan.signedCi && plan.signedReview
    requires IsFullCommitSha(plan.baselineHeadSha) && head != [] && head != plan.baselineHeadSha
    requires CleanReviewOf(input, head)
    ensures Stands(codec, c, SESSION, v) && Prompted(c.steps, c.preparations)
    ensures FirstRepair(codec, v, plan, head, passed) && passed.gateId == gate
  {
    hide Stands, Deployment, Ample, HistoryOf, RepairCount, PhaseOf, FullContext, EvaluateTransitionGuards, Prompted,
      Went, Proven, CleanReviewOf, EvaluateReviewEvidence, CurrentRepairEntry;
    DeploymentLess(codec, 18, 15);
    var a, reviewing, package;
    a, reviewing, passed, package := ReachReviewing(codec, plan, gate, head, input);
    DeploymentIsAmple(codec, 18, reviewing, 1);
    var b, reviewed, snapshot := TakeReview(
      codec, a, SESSION, reviewing,
      ReviewReceipt(0, "", plan.sha256, 1, head, "", 0, Some(ChangesRequested), [], [], false, 6));
    var inspection := Intact([passed], package, {snapshot.id});
    assert reviewed.reviews == [snapshot];
    OnlySnapshotDecides(plan, snapshot, head, inspection);
    ChangesAllowed(codec, reviewed, plan, head, inspection);
    DeploymentIsAmple(codec, 18, reviewed, 2);
    c, v := GoReviewed(codec, b, SESSION, reviewed, Repairing, See(plan, head, inspection));
    Arrived(codec, reviewed, Repairing, EMPTY_INPUT, v);
    EnteredFrom(codec, reviewed, EMPTY_INPUT, v);
  }

  /** The basis of the first repair is the reviewed HEAD, whatever is recorded later. */
  lemma ReviewedHeadIsBasis(
    codec: Codec, u: View, plan: BoundPlan, head: Text, passed: GateReceipt, v: View, observed: Observation)
    requires FirstRepair(codec, u, plan, head, passed) && v.reviews == u.reviews && v.plan == u.plan
    requires IsFullCommitSha(head) && observed.repository.headSha != head && observed.planIntact
    requires observed.repository.clean && observed.repository.branch == Some(plan.baselineBranch)
    requires observed.hasCommittedDiff(head, observed.repository.headSha)
    ensures ShowsCommit(codec, u, v, observed)
  {
    hide HistoryOf, CurrentRepairEntry, RepairCount, PhaseOf, LatestFailure;
    var snapshot :| v.reviews == [snapshot] && snapshot.subjectHeadSha == head && snapshot.stateVersion == 6;
    assert ImportedBy([], 6) == [] && [snapshot][..0] == [];
    assert ImportedBy([snapshot], 6) == [snapshot];
    assert NewestReview([snapshot]) == Some(snapshot);
  }

  /** Verifying again after the first repair, at a new commit. */
  lemma ReachVerifyingAgain(codec: Codec, plan: BoundPlan, gate: string, one: Text, two: Text, input: Json)
    returns (b: Course, u: View, c: Course, v: View, passed: GateReceipt)
    requires Deployment(codec, 20) && plan.gates == [gate] && plan.signedCi && plan.signedReview
    requires IsFullCommitSha(plan.baselineHeadSha) && IsFullCommitSha(one) && one != plan.baselineHeadSha && one != two
    requires CleanReviewOf(input, one)
    ensures Stands(codec, b, SESSION, u) && FirstRepair(codec, u, plan, one, passed) && passed.gateId == gate
    ensures Stands(codec, c, SESSION, v) && Prompted(c.steps, c.preparations) && b.steps <= c.steps
    ensures v.task == TaskRow(Verifying, 8, None) && v.plan == Some(plan) && |v.audit| == 20
    ensures v.gates == [passed] && v.reviews == u.reviews
    ensures RepairCount(v.transitions) == 1 && PhaseOf(v) == PostPr
  {
    hide Stands, Deployment, Ample, HistoryOf, RepairCount, PhaseOf, Prompted, Went, CleanReviewOf,
      CurrentRepairEntry, ShowsCommit;
    DeploymentLess(codec, 20, 18);
    b, u, passed := ReachRepairing(codec, plan, gate, one, input);
    ReviewedHeadIsBasis(codec, u, plan, one, passed, u, See(plan, two, NOTHING));
    DeploymentIsAmple(codec, 20, u, 2);
    c, v := LeaveRepair(codec, b, SESSION, u, See(plan, two, NOTHING));
    Arrived(codec, u, Verifying, EMPTY_INPUT, v);
  }

  // ----- past the budget

  lemma FailedGateFails(
    plan: BoundPlan, gate: string, passed: GateReceipt, ran: GateReceipt, head: Text, inspection: Inspection)
    requires plan.gates == [gate] && ran.gateId == gate && passed.sequence < ran.sequence
    requires ran.planSha256 == plan.sha256 && ran.headBefore == head && ran.headAfter == head && head != []
    requires ran.result in {GateFailed, GateInvalidated} && ran.id in inspection.payloads
    ensures EvaluateProofEvidence(plan, [passed, ran], Some(head), inspection) == Failed
  {
    hide EvaluateProofEvidence;
    assert [passed] + [ran] == [passed, ran];
    LastGateDecides(plan, [passed], ran, head, inspection);
  }

  /** The checkout and the artifacts as they are when `ran` has just run. */
  function SeeRan(plan: BoundPlan, head: Text, ran: GateReceipt): Observation {
    See(plan, head, Inspection(map[ran.id := ReceiptPayload(true, true)], {}, {}))
  }

  lemma FailureIsRepairable(
    codec: Codec, u: View, plan: BoundPlan, gate: string, passed: GateReceipt, ran: GateReceipt, two: Text, three: Text)
    requires u.task.status == Verifying && u.task.blockedFrom.None? && u.plan == Some(plan) && plan.gates == [gate]
    requires u.gates == [passed, ran] && ran.gateId == gate && passed.sequence < ran.sequence
    requires ran.planSha256 == plan.sha256 && ran.headBefore == two && ran.headAfter == two
    requires ran.result == GateFailed && IsFullCommitSha(two) && two != three
    requires RepairCount(u.transitions) < REPAIR_BUDGET && PhaseOf(u) == PostPr
    ensures Repairable(codec, u, SeeRan(plan, two, ran), See(plan, three, NOTHING))
  {
    hide RepairCount, PhaseOf, EvaluateProofEvidence, EvaluateCiProofEvidence, EvaluateReviewEvidence;
    FailedGateFails(plan, gate, passed, ran, two, SeeRan(plan, two, ran).inspection);
    assert LatestFailure(u.gates) == Some(ran);
  }

  /**
   * From the empty store, through the service alone, to a session that has been repaired any number of times: one
   * repair of a review, and then as many repairs of one failed gate as there are callers who read it together and
   * expect the versions the others will have left. Three such callers take it past the budget.
   */
  lemma BudgetIsOverdrawn(
    codec: Codec, plan: BoundPlan, gate: string, one: Text, two: Text, three: Text, n: nat)
    returns (c: Course, v: View)
    requires Deployment(codec, 21 + 4 * n) && Planned(plan, gate, one, two, three)
    ensures Stands(codec, c, SESSION, v) && RepairCount(v.transitions) == n + 1
  {
    hide Stands, Deployment, Ample, RepairCount, PhaseOf, Prompted, CleanReviewOf, CleanInput, Repairable, HistoryOf,
      FirstRepair;
    DeploymentLess(codec, 21 + 4 * n, 20);
    CleanInputIsClean(one);
    var b, repairing, a, verifying, passed := ReachVerifyingAgain(codec, plan, gate, one, two, CleanInput(one));
    DeploymentIsAmple(codec, 21 + 4 * n, verifying, 1);
    var e, u, ran := TakeGate(
      codec, a, SESSION, verifying, GateReceipt(0, "", gate, plan.sha256, two, two, GateFailed, 8));
    assert u.gates == [passed, ran];
    FailureIsRepairable(codec, u, plan, gate, passed, ran, two, three);
    DeploymentIsAmple(codec, 21 + 4 * n, u, 4 * n);
    c, v := StaleReadsOverdraw(codec, e, SESSION, u, SeeRan(plan, two, ran), See(plan, three, NOTHING), n);
  }

  // ----- into a stranded repair, and out of it

  lemma StrandingAllowed(codec: Codec, v: View, plan: BoundPlan, observed: Observation)
    requires v.task.status == Verifying && v.plan == Some(plan) && observed.planIntact && PhaseOf(v) == PostPr
    requires EvaluateProofEvidence(plan, v.gates, Some(observed.repository.headSha), observed.inspection) == Failed
    requires RepairCount(v.transitions) < REPAIR_BUDGET
    ensures EvaluateTransitionGuards(
              Verifying, Repairing, EMPTY_INPUT, None, FullContext(codec, v, v, observed)).GuardsAllowed?
  {
    hide FullContext, PhaseOf, EvaluateTransitionGuards, EvaluateProofEvidence, EvaluateCiProofEvidence,
      EvaluateReviewEvidence, RepairCount;
    ContextNow(codec, v, observed);
    EmptyInputGuards(Verifying, Repairing, None, FullContext(codec, v, v, observed));
  }

  lemma NoRealFailure(passed: GateReceipt, ran: GateReceipt)
    requires passed.result == GatePassed && ran.result == GateInvalidated
    ensures LatestFailure([passed, ran]).None?
  {
    hide LatestFailure;
    LatestFailureIsExact([passed, ran]);
  }

  lemma StrandedHere(codec: Codec, c: Course, v: View)
    requires Lawful(codec) && Stands(codec, c, SESSION, v) && Stranded(codec, v)
    ensures StrandedAt(codec, c.steps, SESSION)
  {
    hide After, Stranded, ViewOf, Stands, Lawful, StoreInv, SessionInv;
    StandsIsReachable(codec, c, SESSION, v);
  }

  /**
   * An invalidated run after a first repair strands the session, and every caller expected the version it was shown.
   */
  lemma StrandingIsServed(codec: Codec, plan: BoundPlan, gate: string, one: Text, two: Text)
    returns (b: Course, u: View, passed: GateReceipt, c: Course, v: View)
    requires Deployment(codec, 23) && plan.gates == [gate] && plan.signedCi && plan.signedReview
    requires IsFullCommitSha(plan.baselineHeadSha) && IsFullCommitSha(one) && IsFullCommitSha(two)
    requires one != plan.baselineHeadSha && one != two
    ensures Stands(codec, c, SESSION, v) && Prompted(c.steps, c.preparations) && StrandedAt(codec, c.steps, SESSION)
    ensures Stands(codec, b, SESSION, u) && FirstRepair(codec, u, plan, one, passed) && b.steps <= c.steps
    ensures v.task == TaskRow(Repairing, 9, None) && v.plan == u.plan && v.reviews == u.reviews && |v.audit| == 23
  {
    hide Stands, Deployment, Ample, RepairCount, PhaseOf, Prompted, CleanReviewOf, CleanInput, HistoryOf, FirstRepair,
      Went, EvaluateTransitionGuards, FullContext, EvaluateProofEvidence, CurrentRepairEntry, LatestFailure,
      StrandedAt;
    DeploymentLess(codec, 23, 20);
    CleanInputIsClean(one);
    DeploymentIsLawful(codec, 23);
    var a, verifying;
    b, u, a, verifying, passed := ReachVerifyingAgain(codec, plan, gate, one, two, CleanInput(one));
    DeploymentIsAmple(codec, 23, verifying, 1);
    var e, w, ran := TakeGate(
      codec, a, SESSION, verifying, GateReceipt(0, "", gate, plan.sha256, two, two, GateInvalidated, 8));
    assert w.gates == [passed, ran];
    FailedGateFails(plan, gate, passed, ran, two, SeeRan(plan, two, ran).inspection);
    StrandingAllowed(codec, w, plan, SeeRan(plan, two, ran));
    DeploymentIsAmple(codec, 23, w, 2);
    c, v := GoProof(codec, e, SESSION, w, Repairing, EMPTY_INPUT, SeeRan(plan, two, ran));
    Arrived(codec, w, Repairing, EMPTY_INPUT, v);
    EnteredFrom(codec, w, EMPTY_INPUT, v);
    FirstRepairPassed(codec, u, plan, one, passed);
    NoRealFailure(passed, ran);
    StrandedHere(codec, c, v);
  }

  lemma FirstRepairPassed(codec: Codec, u: View, plan: BoundPlan, head: Text, passed: GateReceipt)
    requires FirstRepair(codec, u, plan, head, passed)
    ensures passed.result == GatePassed && u.plan == Some(plan) && u.task.status == Repairing
  {
    hide HistoryOf, CurrentRepairEntry, RepairCount, PhaseOf;
  }

  /**
   * And a caller whose service read the lifecycle during that first repair, and the rest once the session was stranded,
   * leaves on the commit the first repair was to start from, by expecting the version of the second.
   */
  lemma StrandedIsLeft(codec: Codec, plan: BoundPlan, gate: string, one: Text, two: Text, three: Text)
    returns (c: Course, v: View, d: Course, w: View)
    requires Deployment(codec, 25) && Planned(plan, gate, one, two, three)
    ensures Stands(codec, c, SESSION, v) && Prompted(c.steps, c.preparations) && StrandedAt(codec, c.steps, SESSION)
    ensures Stands(codec, d, SESSION, w) && c.steps <= d.steps && !StrandedAt(codec, d.steps, SESSION)
    ensures w.task.status == Verifying
  {
    hide Stands, Deployment, Ample, RepairCount, PhaseOf, Prompted, CleanReviewOf, CleanInput, HistoryOf, FirstRepair,
      StrandedAt, ShowsCommit, After, IsViewAt;
    DeploymentLess(codec, 25, 23);
    var b, u, passed;
    b, u, passed, c, v := StrandingIsServed(codec, plan, gate, one, two);
    StandsNow(codec, b, SESSION, u);
    ReadStays(codec, b, c, SESSION, |b.steps|, u);
    FirstRepairPassed(codec, u, plan, one, passed);
    ReviewedHeadIsBasis(codec, u, plan, one, passed, v, See(plan, three, NOTHING));
    DeploymentIsAmple(codec, 25, v, 2);
    d, w := StaleExitLeaves(codec, c, SESSION, v, |b.steps|, u, See(plan, three, NOTHING));
  }
}

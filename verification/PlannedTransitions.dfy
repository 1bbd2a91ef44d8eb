/** `session next` and `transitionSession` agree: what the planner calls executable is what the store writes. */
module PlannedTransitions {
  import opened Options
  import opened JsonValues
  import opened Lifecycle
  import opened SessionTransition
  import opened ProofEvidence
  import opened Rows
  import opened StoreTables
  import opened SessionStore
  import opened StoreInvariant
  import opened StoreSteps
  import opened StoreRuns
  import opened SessionService
  import opened ServedTraces
  import opened Admissions

  /** The next transition `session next` proposes, from the rows it reads. */
  function PlanNext(codec: Codec, v: View, observed: Observation): Planned {
    var proof := EvaluateSessionProof(v, Some(observed.repository.headSha), observed);
    PlanNextTransition(
      v.task.status, v.task.stateVersion, v.task.blockedFrom, Some(PhaseOf(v)),
      Some((proof.evidence, proof.attemptsUsed)),
      Some(FullContext(codec, v, v, observed)))
  }

  /** The call `transitionSession` prepares from the same rows for an input that carries no plan. */
  function CallNow(
    codec: Codec, v: View, request: TransitionRequest, key: string, observed: Observation, failure: string)
    : TransitionCall
  {
    PrepareCall(codec, request, key, false, Snapshots(Some(v), v, v, v), observed, PlanRejected(failure))
  }

  lemma FullContextAgrees(codec: Codec, v: View, observed: Observation)
    ensures
      var proof := EvaluateSessionProof(v, Some(observed.repository.headSha), observed);
      var context := FullContext(codec, v, v, observed);
      && Agrees(context, PhaseOf(v), proof.evidence, proof.attemptsUsed)
      && context.boundPlan.None?
      && (proof.plan.None? ==>
            context.plan.None? && context.review.Some? && context.review.value.status != ReviewCurrent)
  {
    hide EvaluateProofEvidence, EvaluateCiProofEvidence, EvaluateReviewEvidence, ImplementationBasisOf, RepairBasis,
      PhaseOf, HistoryOf, CommittedSince;
  }

  lemma PlanlessContextIsUnusable(codec: Codec, v: View, observed: Observation)
    requires EvaluateSessionProof(v, None, observed).plan.None?
    ensures EvaluateSessionProof(v, Some(observed.repository.headSha), observed).plan.None?
    ensures
      var context := PlanlessContext(v, v, observed);
      context.review.Some? && context.review.value.status != ReviewCurrent
  {
    hide EvaluateProofEvidence, EvaluateCiProofEvidence, EvaluateReviewEvidence, PhaseOf;
  }

  /** What each branch of the preparation hands to the guards. */
  lemma CallCases(
    codec: Codec, v: View, request: TransitionRequest, key: string, observed: Observation, failure: string)
    requires request.expectedVersion == v.task.stateVersion
    ensures
      var call := CallNow(codec, v, request, key, observed, failure);
      && call.request == request && call.key == key && call.boundPlan.None?
      && (call.watermark.Some? ==> call.watermark.value == ReadWatermark(v))
      && call.guards
         == if v.task.status == Framed && request.target == ProofReady then PreparedRejection(failure)
            else if NeedsReview(request, v) then
              UnderContext(if EvaluateSessionProof(v, None, observed).plan.None? then PlanlessContext(v, v, observed)
                           else FullContext(codec, v, v, observed))
            else if NeedsProof(request, v) then UnderContext(FullContext(codec, v, v, observed))
            else UnderContext(EMPTY_CONTEXT)
  {
    hide EvaluateSessionProof, FullContext, PlanlessContext, ReadWatermark, NeedsReview, NeedsProof;
  }

  /** For a target the graph leaves open, the guards say the same of the prepared call as of the planner's context. */
  lemma GuardsAgree(
    codec: Codec, v: View, request: TransitionRequest, key: string, observed: Observation, failure: string)
    requires request.expectedVersion == v.task.stateVersion && request.input == EMPTY_INPUT
    requires EvaluateLifecycleTransition(
               v.task.status, request.target, v.task.blockedFrom, Some(PhaseOf(v))).TransitionAllowed?
    ensures
      RunGuards(CallNow(codec, v, request, key, observed, failure).guards, v.task.status, request.target, EMPTY_INPUT,
                v.task.blockedFrom).GuardsAllowed?
      <==>
      EvaluateTransitionGuards(
        v.task.status, request.target, EMPTY_INPUT, v.task.blockedFrom,
        FullContext(codec, v, v, observed)).GuardsAllowed?
  {
    hide CallNow, EvaluateTransitionGuards, FullContext, PlanlessContext, PhaseOf, EvaluateSessionProof;
    CallCases(codec, v, request, key, observed, failure);
    FullContextAgrees(codec, v, observed);
    EmptyInputGuards(v.task.status, request.target, v.task.blockedFrom, FullContext(codec, v, v, observed));
    EmptyInputGuards(v.task.status, request.target, v.task.blockedFrom, EMPTY_CONTEXT);
    if NeedsReview(request, v) && EvaluateSessionProof(v, None, observed).plan.None? {
      PlanlessContextIsUnusable(codec, v, observed);
      EmptyInputGuards(v.task.status, request.target, v.task.blockedFrom, PlanlessContext(v, v, observed));
    }
  }

  lemma FreshCallIsJudged(codec: Codec, db: Tables, call: TransitionCall)
    requires StoreInv(codec, db) && call.request.sessionId in db.sessions
    requires FindDecision(Of(db.decisions, call.request.sessionId), call.key).None?
    ensures Known(db, call.request.sessionId)
    ensures Judge(codec, db, call) == JudgeFresh(ViewOf(db, call.request.sessionId), call)
  {
    hide StoreInv, SessionInv, AuthorityHolds, RowCorrupt, JudgeFresh, ViewOf;
    OneSession(codec, db, call.request.sessionId);
    AgreesOnSession(codec, call.request.sessionId, ViewOf(db, call.request.sessionId));
  }

  /** With empty input and the version shown, the store admits exactly the transition the planner calls executable. */
  lemma PlannedIsAdmitted(
    codec: Codec, v: View, request: TransitionRequest, key: string, observed: Observation, failure: string)
    requires request.expectedVersion == v.task.stateVersion && request.input == EMPTY_INPUT
    ensures
      JudgeFresh(v, CallNow(codec, v, request, key, observed, failure)).Admit?
      <==> PlanNext(codec, v, observed).candidate
           == Some(Candidate(v.task.status, request.target, v.task.stateVersion, true))
  {
    hide CallNow, EvaluateTransitionGuards, EvaluateLifecycleTransition, FullContext, PhaseOf, EvaluateSessionProof,
      PlanNextTransition, ReadWatermark, NeedsReview, NeedsProof, PlanlessContext, Agrees;
    CallCases(codec, v, request, key, observed, failure);
    FullContextAgrees(codec, v, observed);
    var proof := EvaluateSessionProof(v, Some(observed.repository.headSha), observed);
    PlannerIsExact(
      v.task.status, v.task.stateVersion, v.task.blockedFrom, PhaseOf(v), proof.evidence, proof.attemptsUsed,
      FullContext(codec, v, v, observed), request.target);
    if EvaluateLifecycleTransition(
         v.task.status, request.target, v.task.blockedFrom, Some(PhaseOf(v))).TransitionAllowed? {
      GuardsAgree(codec, v, request, key, observed, failure);
    }
  }

  lemma NotAdmittedChangesNoHistory(codec: Codec, db: Tables, call: TransitionCall, supply: Supply)
    requires !Judge(codec, db, call).Admit?
    ensures ApplyTransition(codec, db, call, supply).0.transitions == db.transitions
  {
    hide Judge;
    RejectedAppliesNothing(codec, db, call, supply);
  }

  /** Under fresh identifiers the verdict on a new key is carried out. */
  lemma VerdictIsWritten(codec: Codec, db: Tables, call: TransitionCall, supply: Supply)
    requires Lawful(codec) && StoreInv(codec, db) && call.request.sessionId in db.sessions
    requires FindDecision(Of(db.decisions, call.request.sessionId), call.key).None?
    requires call.boundPlan.Some? ==> call.request.sessionId !in db.plans
    requires FreshSupply(db, supply)
    requires
      var n := |Of(db.audit, call.request.sessionId)| + 2;
      IsSafeInteger(n) && SeparatesEvents(codec.hashing, n)
    ensures Known(db, call.request.sessionId)
    ensures
      var v := ViewOf(db, call.request.sessionId);
      var (after, outcome) := ApplyTransition(codec, db, call, supply);
      if JudgeFresh(v, call).Admit? then
        && outcome == Returned(AppliedResult(v, call, supply))
        && after.transitions == db.transitions + [Row(call.request.sessionId, AppliedRow(codec, v, call, supply))]
      else after.transitions == db.transitions
  {
    hide Judge, JudgeFresh, StoreInv, Lawful, SeparatesEvents, RecordAdmission, ViewOf, FreshSupply, AppliedRow,
      AppliedResult;
    FreshCallIsJudged(codec, db, call);
    if Judge(codec, db, call).Admit? {
      AdmissionIsWritten(codec, db, call, supply);
      AdmissionWrites(codec, db, call, supply);
    } else {
      NotAdmittedChangesNoHistory(codec, db, call, supply);
    }
  }

  /**
   * From the planner to the row. A caller who asks, with empty input, an unused key and the version shown, for the
   * transition `session next` proposes, under fresh identifiers and an unchanged checkout, finds it applied; and a
   * caller who asks for any other transition leaves the history as it was.
   */
  lemma PlannedIsWritten(
    codec: Codec, db: Tables, request: TransitionRequest, key: string, observed: Observation, failure: string,
    supply: Supply)
    requires Lawful(codec) && StoreInv(codec, db) && request.sessionId in db.sessions
    requires FindDecision(Of(db.decisions, request.sessionId), key).None? && request.input == EMPTY_INPUT
    requires request.expectedVersion == ViewOf(db, request.sessionId).task.stateVersion
    requires FreshSupply(db, supply)
    requires
      var n := |Of(db.audit, request.sessionId)| + 2;
      IsSafeInteger(n) && SeparatesEvents(codec.hashing, n)
    ensures
      var v := ViewOf(db, request.sessionId);
      var call := CallNow(codec, v, request, key, observed, failure);
      var (after, outcome) := ApplyTransition(codec, db, call, supply);
      if PlanNext(codec, v, observed).candidate
         == Some(Candidate(v.task.status, request.target, v.task.stateVersion, true))
      then
        && outcome == Returned(AppliedResult(v, call, supply))
        && after.transitions == db.transitions + [Row(request.sessionId, AppliedRow(codec, v, call, supply))]
      else after.transitions == db.transitions
  {
    hide CallNow, PlanNext, JudgeFresh, StoreInv, Lawful, SeparatesEvents, ApplyTransition, FreshSupply, AppliedRow,
      AppliedResult, FindDecision, ViewOf, SessionInv, Of, EvaluateSessionProof, FullContext, PlanlessContext,
      NeedsReview, NeedsProof, ReadWatermark;
    OneSession(codec, db, request.sessionId);
    var v := ViewOf(db, request.sessionId);
    CallCases(codec, v, request, key, observed, failure);
    PlannedIsAdmitted(codec, v, request, key, observed, failure);
    VerdictIsWritten(codec, db, CallNow(codec, v, request, key, observed, failure), supply);
  }
}

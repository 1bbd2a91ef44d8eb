/** What the stored evidence shows whenever the controller acts on it. */
module StoredEvidence {
  import opened Options
  import opened JsonValues
  import opened Lifecycle
  import opened SessionTransition
  import opened SessionTrace
  import opened ProofEvidence
  import opened Rows
  import opened StoreTables
  import opened SessionStore
  import opened StoreInvariant
  import opened StoreSteps
  import opened StoreRuns
  import opened SessionService
  import opened ServiceRuns
  import opened ServedTraces

  // ----- completion rests on stored evidence

  /** Every declared gate has a newest local receipt and a newest signed CI package that pass at `head`. */
  ghost predicate ProofStands(v: View, head: Text, inspection: Inspection) {
    && v.plan.Some?
    && v.plan.value.signedCi
    && forall gate :: gate in v.plan.value.gates ==>
         && GateProved(v.plan.value, v.gates, gate, Some(head), inspection)
         && CiGateProved(v.plan.value, v.signedGates, gate, Some(head), inspection)
  }

  /** The snapshot imported last is of `head`, verifies, blocks nothing, and a person approved that very commit. */
  ghost predicate ReviewStands(v: View, head: Text, inspection: Inspection) {
    && v.plan.Some?
    && v.plan.value.signedReview
    && v.reviews != []
    && var newest := v.reviews[|v.reviews| - 1];
    && newest.id in inspection.verifiedReviews
    && newest.planSha256 == v.plan.value.sha256
    && newest.subjectHeadSha == head
    && newest.merged
    && newest.decision != Some(ChangesRequested)
    && (forall t :: t in newest.threads ==> t.resolved || t.outdated)
    && exists a :: a in newest.approvals && a.actorType == USER && a.commitSha == head
  }

  lemma EvidenceIsDistinct(codec: Codec, session: string, v: View)
    requires SessionInv(codec, session, v)
    ensures DistinctSequences(v.gates, GateSequence) && DistinctSequences(v.signedGates, SignedGateSequence)
    ensures Rows.Ascending(v.reviews, ReviewSequence)
  {
    hide HistoryInv, LedgerInv, Conserved, DecisionInv;
  }

  lemma PassingContextStands(codec: Codec, session: string, v: View, observed: Observation)
    requires SessionInv(codec, session, v)
    requires
      var proof := EvaluateSessionProof(v, Some(observed.repository.headSha), observed);
      proof.plan.Some? && proof.evidence == Passed && proof.ci == CiPassed
    ensures ProofStands(v, observed.repository.headSha, observed.inspection)
  {
    hide SessionInv, EvaluateProofEvidence, EvaluateCiProofEvidence, EvaluateReviewEvidence, GateProved, CiGateProved;
    EvidenceIsDistinct(codec, session, v);
    LocalProofIsExact(v.plan.value, v.gates, Some(observed.repository.headSha), observed.inspection);
    CiProofIsExact(v.plan.value, v.signedGates, Some(observed.repository.headSha), observed.inspection);
  }

  lemma CompletingReviewStands(codec: Codec, session: string, v: View, observed: Observation, review: ReviewEvidence)
    requires SessionInv(codec, session, v) && v.plan.Some?
    requires review
             == EvaluateReviewEvidence(v.plan.value, v.reviews, Some(observed.repository.headSha), observed.inspection)
    requires review.status == ReviewCurrent && review.headSha == Some(observed.repository.headSha)
    requires review.decision != Some(ChangesRequested) && review.blockingFindings == [] && review.merged
    requires exists a :: a in review.approvals && a.actorType == USER && a.commitSha == observed.repository.headSha
    ensures ReviewStands(v, observed.repository.headSha, observed.inspection)
  {
    hide SessionInv;
    EvidenceIsDistinct(codec, session, v);
    NewestReviewIsLast(v.reviews);
    BlockingThreadsAreOpen(v.reviews[|v.reviews| - 1].threads);
  }

  /** Only a full context shows the guards a repository, and the call then carries the watermark it was read under. */
  lemma RepositoryIsRead(
    codec: Codec, request: TransitionRequest, key: string, known: bool, taken: Snapshots, observed: Observation,
    prepared: PreparedPlan)
    requires ContextOf(PrepareCall(codec, request, key, known, taken, observed, prepared)).repository.Some?
    ensures
      var call := PrepareCall(codec, request, key, known, taken, observed, prepared);
      && taken.lifecycle.Some?
      && call.watermark == Some(ReadWatermark(taken.watermark))
      && ContextOf(call) == FullContext(codec, taken.lifecycle.value, taken.evidence, observed)
  {
    hide EvaluateSessionProof, FullContext, PhaseOf, ReadWatermark, NeedsReview, NeedsProof, BindsPlanNow;
  }

  /** What a full context says of the proof and the live HEAD. */
  lemma FullContextOf(codec: Codec, lifecycle: View, evidence: View, observed: Observation)
    ensures
      var context := FullContext(codec, lifecycle, evidence, observed);
      var proof := EvaluateSessionProof(evidence, Some(observed.repository.headSha), observed);
      && context.plan == proof.plan
      && context.evidence == Some(proof.evidence)
      && context.ci == Some(proof.ci)
      && context.review == Some(proof.review)
      && LiveHead(context) == Some(observed.repository.headSha)
  {
    hide EvaluateSessionProof, ImplementationBasisOf, RepairBasis, PhaseOf, HistoryOf, CommittedSince;
  }

  /** Equal receipts under a plan that stays bound prove the same, whatever transitions came in between. */
  lemma SameProof(e: View, v: View, head: Option<Text>, observed: Observation)
    requires e.gates == v.gates && e.signedGates == v.signedGates && e.reviews == v.reviews
    requires e.plan.Some? ==> v.plan == e.plan
    requires EvaluateSessionProof(e, head, observed).evidence == Passed
    ensures
      var proof, later := EvaluateSessionProof(e, head, observed), EvaluateSessionProof(v, head, observed);
      && proof.plan.Some? && later.plan == proof.plan && later.evidence == proof.evidence
      && later.ci == proof.ci && later.review == proof.review
  {
    hide EvaluateProofEvidence, EvaluateCiProofEvidence, EvaluateReviewEvidence;
  }

  lemma AuthorityStands(
    codec: Codec, session: string, v: View, observed: Observation, step: Applied)
    requires SessionInv(codec, session, v) && CompletesUnderAuthority(step)
    requires
      var proof := EvaluateSessionProof(v, Some(observed.repository.headSha), observed);
      && proof.plan.Some?
      && step.context.evidence == Some(proof.evidence)
      && step.context.ci == Some(proof.ci)
      && step.context.review == Some(proof.review)
      && LiveHead(step.context) == Some(observed.repository.headSha)
    ensures
      && ProofStands(v, observed.repository.headSha, observed.inspection)
      && ReviewStands(v, observed.repository.headSha, observed.inspection)
  {
    hide SessionInv, EvaluateProofEvidence, EvaluateCiProofEvidence, EvaluateReviewEvidence, ProofStands,
      ReviewStands;
    PassingContextStands(codec, session, v, observed);
    CompletingReviewStands(codec, session, v, observed, step.context.review.value);
  }

  lemma CompletionSource(source: TaskStatus, blockedFrom: Option<TaskStatus>, phase: Phase)
    requires EvaluateLifecycleTransition(source, Completed, blockedFrom, Some(phase)).TransitionAllowed?
    ensures source == ReadyForHuman
  {
  }

  /**
   * When a session completes, the rows inside that very transaction prove it: at one observed HEAD, every declared
   * gate passes locally and in signed CI, and the last imported review approves that HEAD and saw it merged. This needs
   * no hypothesis on the version the caller expects: the watermark alone pins the receipts.
   */
  lemma CompletionRestsOnStoredEvidence(codec: Codec, steps: seq<Step>, preparations: seq<Preparation>, k: nat)
    requires Lawful(codec) && Serviced(codec, steps, preparations)
    requires k < |steps| && steps[k].Deliver? && steps[k].call.request.target == Completed
    requires Admits(codec, After(codec, steps[..k]), steps[k].call, steps[k].supply)
    ensures
      var v := ViewOf(After(codec, steps[..k]), steps[k].call.request.sessionId);
      var observed := preparations[k].observed;
      && observed.planIntact
      && ProofStands(v, observed.repository.headSha, observed.inspection)
      && ReviewStands(v, observed.repository.headSha, observed.inspection)
  {
    hide After, ViewOf, Judge, RecordAdmission, SessionInv, PhaseOf, EvaluateTransitionGuards, EvaluateSessionProof,
      EvaluateLifecycleTransition, PreparedBy, PrepareCall, ReadWatermark, ProofStands, ReviewStands, LiveHead,
      CurrentReviewAtLiveHead, Lawful, FullContext;
    var call, p, db := steps[k].call, preparations[k], After(codec, steps[..k]);
    var session := call.request.sessionId;
    AdmissionAt(codec, steps, k);
    var v := ViewOf(db, session);
    var step := AppliedBy(db, call);
    CompletionSource(v.task.status, v.task.blockedFrom, PhaseOf(v));
    CompletionIsAuthorised(step, v.task.blockedFrom);
    CompletionSeesRepository(step);
    PassingCallReadsEvidence(codec, steps, k, call, p);
    KnownIn(codec, steps, k, session);
    AuthorityStands(codec, session, v, p.observed, step);
    PlanWasIntact(v, p.observed);
  }

  /** The passing proof a call was prepared from is the proof inside its transaction, whatever version it expects. */
  lemma PassingCallReadsEvidence(codec: Codec, steps: seq<Step>, k: nat, call: TransitionCall, p: Preparation)
    requires Lawful(codec) && k <= |steps| && PreparedBy(codec, steps, k, call, p)
    requires ReachesGuards(codec, After(codec, steps[..k]), call)
    requires ContextOf(call).repository.Some? && ContextOf(call).evidence == Some(Passed)
    ensures
      var v := ViewOf(After(codec, steps[..k]), call.request.sessionId);
      var proof := EvaluateSessionProof(v, Some(p.observed.repository.headSha), p.observed);
      && proof.plan.Some?
      && ContextOf(call).evidence == Some(proof.evidence)
      && ContextOf(call).ci == Some(proof.ci)
      && ContextOf(call).review == Some(proof.review)
      && LiveHead(ContextOf(call)) == Some(p.observed.repository.headSha)
  {
    hide After, ViewOf, ReadWatermark, PhaseOf, EvaluateLifecycleTransition, EvaluateSessionProof, FullContext,
      LiveHead, PrepareCall, KeyRecordedAt;
    var session, observed := call.request.sessionId, p.observed;
    RepositoryIsRead(
      codec, call.request, call.key, KeyRecordedAt(codec, steps, p.keyAt, session, call.key), p.taken, observed,
      p.prepared);
    FullContextOf(codec, p.taken.lifecycle.value, p.taken.evidence, observed);
    RunGrows(codec, steps, p.lifecycleAt, p.watermarkAt, session);
    PresentAfter(After(codec, steps[..p.lifecycleAt]), After(codec, steps[..p.watermarkAt]), session);
    ReceiptsAreCurrent(codec, steps, call, p.watermarkAt, p.evidenceAt, k);
    SameProof(
      p.taken.evidence, ViewOf(After(codec, steps[..k]), session), Some(observed.repository.headSha), observed);
  }

  /**
   * When a session first enters review, every declared gate passes locally and in signed CI at the one observed HEAD,
   * the HEAD the clean pre-PR review names, on the rows inside that very transaction.
   */
  lemma ReviewEntryRestsOnStoredProof(codec: Codec, steps: seq<Step>, preparations: seq<Preparation>, k: nat)
    requires Lawful(codec) && Serviced(codec, steps, preparations)
    requires k < |steps| && steps[k].Deliver? && steps[k].call.request.target == Reviewing
    requires Admits(codec, After(codec, steps[..k]), steps[k].call, steps[k].supply)
    requires ViewOf(After(codec, steps[..k]), steps[k].call.request.sessionId).task.status == PrePrReviewing
    ensures
      var v := ViewOf(After(codec, steps[..k]), steps[k].call.request.sessionId);
      var observed := preparations[k].observed;
      var review := ReadPrePrReviewEvidence(steps[k].call.request.input);
      && observed.planIntact
      && ProofStands(v, observed.repository.headSha, observed.inspection)
      && review.Some? && review.value.outcome == Clean && review.value.headSha == observed.repository.headSha
  {
    hide After, ViewOf, Judge, RecordAdmission, SessionInv, PhaseOf, EvaluateTransitionGuards, EvaluateSessionProof,
      EvaluateLifecycleTransition, PreparedBy, PrepareCall, ReadWatermark, ProofStands, ReadPrePrReviewEvidence,
      Lawful, FullContext;
    var call, p, db := steps[k].call, preparations[k], After(codec, steps[..k]);
    var session := call.request.sessionId;
    AdmissionAt(codec, steps, k);
    var v := ViewOf(db, session);
    ReviewEntryIsClean(AppliedBy(db, call), v.task.blockedFrom);
    PassingCallReadsEvidence(codec, steps, k, call, p);
    KnownIn(codec, steps, k, session);
    PassingContextStands(codec, session, v, p.observed);
    PlanWasIntact(v, p.observed);
  }

  lemma CompletionSeesRepository(step: Applied)
    requires CompletesUnderAuthority(step)
    ensures step.context.repository.Some?
  {
  }

  lemma PlanWasIntact(v: View, observed: Observation)
    requires EvaluateSessionProof(v, Some(observed.repository.headSha), observed).plan.Some?
    ensures observed.planIntact
  {
  }

  lemma KnownIn(codec: Codec, steps: seq<Step>, k: nat, session: string)
    requires Lawful(codec) && k <= |steps| && Known(After(codec, steps[..k]), session)
    ensures SessionInv(codec, session, ViewOf(After(codec, steps[..k]), session))
  {
    hide After, SessionInv;
    KnownAt(codec, steps[..k], session);
  }

  // ----- review evidence is in order

  /**
   * All snapshots of a session name one pull request, and a later row was observed no earlier and imported at no
   * earlier version: the snapshot with the highest sequence, which the guards read, is the newest observation.
   */
  lemma ReviewsAreInOrder(codec: Codec, steps: seq<Step>, session: string)
    requires Lawful(codec) && session in After(codec, steps).sessions
    ensures Known(After(codec, steps), session)
    ensures
      var reviews := ViewOf(After(codec, steps), session).reviews;
      && (forall i, j :: 0 <= i < j < |reviews| ==>
            && reviews[i].sequence < reviews[j].sequence
            && reviews[i].pullRequestNumber == reviews[j].pullRequestNumber
            && reviews[i].observedAt <= reviews[j].observedAt
            && reviews[i].stateVersion <= reviews[j].stateVersion)
      && (reviews != [] ==>
            && NewestReview(reviews) == Some(reviews[|reviews| - 1])
            && forall r :: r in reviews ==> r.observedAt <= reviews[|reviews| - 1].observedAt)
  {
    hide After, SessionInv, ViewOf;
    KnownAt(codec, steps, session);
    ReviewsInOrder(codec, session, ViewOf(After(codec, steps), session));
  }

  lemma ReviewsInOrder(codec: Codec, session: string, v: View)
    requires SessionInv(codec, session, v)
    ensures
      forall i, j :: 0 <= i < j < |v.reviews| ==>
        && v.reviews[i].sequence < v.reviews[j].sequence
        && v.reviews[i].pullRequestNumber == v.reviews[j].pullRequestNumber
        && v.reviews[i].observedAt <= v.reviews[j].observedAt
        && v.reviews[i].stateVersion <= v.reviews[j].stateVersion
    ensures
      v.reviews != [] ==>
        && NewestReview(v.reviews) == Some(v.reviews[|v.reviews| - 1])
        && forall r :: r in v.reviews ==> r.observedAt <= v.reviews[|v.reviews| - 1].observedAt
  {
    hide HistoryInv, LedgerInv, Conserved, DecisionInv;
    NewestReviewIsLast(v.reviews);
  }

  // ----- the repair basis does not move

  lemma HistoryOfView(codec: Codec, session: string, v: View)
    requires SessionInv(codec, session, v)
    ensures forall i :: 0 <= i < |v.transitions| ==> codec.parseInput(v.transitions[i].inputJson).Some?
    ensures HistoryOf(codec, v) == ToHistory(codec, v.transitions)
    ensures forall i :: 0 <= i < |v.transitions| ==> v.transitions[i].fromVersion == i
  {
    hide Conserved, DecisionInv, EvidenceInv;
    ReadOrderIsWriteOrder(codec, session, v);
    forall i | 0 <= i < |v.transitions|
      ensures codec.parseInput(v.transitions[i].inputJson).Some? && v.transitions[i].fromVersion == i
    {
      assert RowInPlace(codec, session, v, i);
    }
  }

  /**
   * A repair opened by a review keeps the basis that authorised it. `before` is the session as the repair was entered
   * from `reviewing` or `ready_for_human`, `now` any later point with no further repair entry: whatever was imported,
   * blocked or recovered since, the basis is the HEAD of the snapshot that was newest at the entry.
   */
  lemma RepairBasisIsAuthorisingSnapshot(codec: Codec, session: string, before: View, now: View)
    requires SessionInv(codec, session, before) && SessionInv(codec, session, now)
    requires Grows(before, now) && |before.transitions| < |now.transitions|
    requires
      var entry := now.transitions[|before.transitions|];
      IsRepairEntry(entry.source, entry.target) && entry.source != Verifying
    requires forall i :: |before.transitions| < i < |now.transitions| ==>
               !IsRepairEntry(now.transitions[i].source, now.transitions[i].target)
    requires forall i :: |before.reviews| <= i < |now.reviews| ==>
               now.reviews[i].stateVersion > |before.transitions|
    ensures
      RepairBasis(HistoryOf(codec, now), now.gates, now.reviews)
      == if before.reviews == [] then None else Some(before.reviews[|before.reviews| - 1].subjectHeadSha)
  {
    hide SessionInv, Grows, HistoryOf, RepairBasis;
    HistoryOfView(codec, session, now);
    assert before.transitions <= now.transitions && before.reviews <= now.reviews by { GrowsPrefixes(before, now); }
    var n := |before.transitions|;
    var history := ToHistory(codec, now.transitions);
    var imported := now.reviews[|before.reviews|..];
    ReviewsInOrder(codec, session, before);
    ReviewVersions(codec, session, before);
    assert history == history[..n] + [history[n]] + history[n + 1..];
    assert now.reviews == before.reviews + imported;
    ReviewRepairBasisIsStable(history[..n], history[n], history[n + 1..], now.gates, before.reviews, imported);
    assert NewestReview([]) == None;
  }

  lemma GrowsPrefixes(v: View, w: View)
    requires Grows(v, w)
    ensures v.transitions <= w.transitions && v.reviews <= w.reviews
  {
  }

  lemma ReviewVersions(codec: Codec, session: string, v: View)
    requires SessionInv(codec, session, v)
    ensures forall r :: r in v.reviews ==> r.stateVersion <= |v.transitions|
  {
    hide HistoryInv, LedgerInv, Conserved, DecisionInv;
  }

  lemma AdmissionView(codec: Codec, db: Tables, call: TransitionCall, supply: Supply)
    requires Admits(codec, db, call, supply) && TablesInv(db)
    requires Known(ApplyTransition(codec, db, call, supply).0, call.request.sessionId)
    ensures
      var v := ViewOf(db, call.request.sessionId);
      var after := ViewOf(ApplyTransition(codec, db, call, supply).0, call.request.sessionId);
      && after.transitions == v.transitions + [AppliedRow(codec, v, call, supply)]
      && after.reviews == v.reviews
  {
    hide Judge, AppliedRow, AppliedTask, AppliedDecision, TransitionCollides, TablesInv;
    AdmittedFields(codec, db, call, supply);
    var session := call.request.sessionId;
    OfAppend(db.transitions, Row(session, AppliedRow(codec, ViewOf(db, session), call, supply)));
  }

  /**
   * Over runs: once step `k` has entered a repair from `reviewing` or `ready_for_human`, its basis is the HEAD of the
   * snapshot that was newest inside that transaction, until another repair is entered.
   */
  lemma RepairBasisOverRuns(codec: Codec, steps: seq<Step>, k: nat, session: string)
    requires Lawful(codec) && k < |steps| && steps[k].Deliver? && steps[k].call.request.sessionId == session
    requires Admits(codec, After(codec, steps[..k]), steps[k].call, steps[k].supply)
    requires steps[k].call.request.target == Repairing
    requires ViewOf(After(codec, steps[..k]), session).task.status in {Reviewing, ReadyForHuman}
    requires Known(After(codec, steps), session)
    requires
      var rows := ViewOf(After(codec, steps), session).transitions;
      forall i :: |ViewOf(After(codec, steps[..k]), session).transitions| < i < |rows| ==>
        !IsRepairEntry(rows[i].source, rows[i].target)
    ensures
      var before, now := ViewOf(After(codec, steps[..k]), session), ViewOf(After(codec, steps), session);
      RepairBasis(HistoryOf(codec, now), now.gates, now.reviews)
      == if before.reviews == [] then None else Some(before.reviews[|before.reviews| - 1].subjectHeadSha)
  {
    hide After, SessionInv, ViewOf, Admits, Next, RepairBasis, HistoryOf, Grows;
    var db, call, supply := After(codec, steps[..k]), steps[k].call, steps[k].supply;
    ReachableInv(codec, steps[..k]);
    KnownTables(codec, db);
    AdmitsKnown(codec, db, call, supply);
    KnownAt(codec, steps[..k], session);
    assert steps[..k + 1] == steps[..k] + [steps[k]] && steps[..|steps|] == steps;
    AfterStep(codec, steps[..k], steps[k]);
    RunGrows(codec, steps, k, k + 1, session);
    RunGrows(codec, steps, k + 1, |steps|, session);
    RunGrows(codec, steps, k, |steps|, session);
    KnownAt(codec, steps, session);
    NextIsApply(codec, db, steps[k]);
    AdmissionView(codec, db, call, supply);
    var before, entered := ViewOf(db, session), ViewOf(After(codec, steps[..k + 1]), session);
    var now := ViewOf(After(codec, steps), session);
    EntryRow(codec, before, entered, now, call, supply);
    RepairBasisIsAuthorisingSnapshot(codec, session, before, now);
  }

  lemma AdmitsKnown(codec: Codec, db: Tables, call: TransitionCall, supply: Supply)
    requires Admits(codec, db, call, supply) && TablesInv(db)
    ensures call.request.sessionId in db.sessions
  {
    hide Judge, RecordAdmission, TablesInv;
  }

  lemma EntryRow(codec: Codec, before: View, entered: View, now: View, call: TransitionCall, supply: Supply)
    requires Grows(entered, now) && entered.reviews == before.reviews
    requires entered.transitions == before.transitions + [AppliedRow(codec, before, call, supply)]
    requires call.request.target == Repairing && before.task.status in {Reviewing, ReadyForHuman}
    ensures |before.transitions| < |now.transitions|
    ensures
      var entry := now.transitions[|before.transitions|];
      IsRepairEntry(entry.source, entry.target) && entry.source != Verifying
    ensures forall i :: |before.reviews| <= i < |now.reviews| ==>
              now.reviews[i].stateVersion > |before.transitions|
  {
    assert now.transitions[|before.transitions|] == entered.transitions[|before.transitions|];
  }
}

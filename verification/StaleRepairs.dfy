/**
 * Why the repair budget, and a stranded repair, need callers that expect the version they were shown. The guards count
 * the repairs, and choose the commit a repair starts from, on what was read; a request that expects a later version
 * than that passes the version check of the transaction all the same.
 */
module StaleRepairs {
  import opened Options
  import opened JsonValues
  import opened Lifecycle
  import opened SessionTransition
  import opened ProofEvidence
  import opened StoreTables
  import opened SessionStore
  import opened StoreRuns
  import opened SessionService
  import opened ServiceRuns
  import opened Admissions
  import opened StrandedRepairs
  import opened Courses

  // ----- the verdict on what was read

  /** A repair may be entered as far as this view and this observation show. */
  predicate ShowsRepair(u: View, observed: Observation) {
    && PhaseOf(u) == PostPr
    && EvaluateSessionProof(u, Some(observed.repository.headSha), observed).evidence == Failed
    && RepairCount(u.transitions) < REPAIR_BUDGET
  }

  lemma FailedProofContext(codec: Codec, u: View, observed: Observation)
    ensures
      var proof := EvaluateSessionProof(u, Some(observed.repository.headSha), observed);
      var context := FullContext(codec, u, u, observed);
      && context.plan == proof.plan && context.repository.Some? && context.phase == Some(PhaseOf(u))
      && context.evidence == Some(proof.evidence) && context.attemptsUsed == Some(RepairCount(u.transitions))
      && (proof.evidence == Failed ==> proof.plan.Some?)
  {
    hide EvaluateProofEvidence, EvaluateCiProofEvidence, EvaluateReviewEvidence, ImplementationBasisOf, RepairBasis,
      PhaseOf, HistoryOf, CommittedSince;
  }

  /**
   * Whatever has happened to a session since it was read, as long as it is verifying again and has no new receipt, a
   * request that expects its present version enters a repair if and only if the view that was read allowed one. How
   * many repairs there have been since does not come into it.
   */
  lemma StaleRepairIsAdmitted(
    codec: Codec, u: View, v: View, request: TransitionRequest, key: string, at: nat, observed: Observation,
    prepared: PreparedPlan)
    requires u.task.status == Verifying && v.task.status == Verifying && v.task.blockedFrom.None? && SameReceipts(u, v)
    requires request.target == Repairing && request.input == EMPTY_INPUT
    requires request.expectedVersion == v.task.stateVersion
    ensures JudgeFresh(v, CallFrom(codec, request, key, Reading(at, u, at, u, observed, prepared))).Admit?
            <==> ShowsRepair(u, observed)
    ensures CallFrom(codec, request, key, Reading(at, u, at, u, observed, prepared)).boundPlan.None?
  {
    hide FullContext, PhaseOf, EvaluateTransitionGuards, EvaluateSessionProof, JudgeFresh, CallFrom;
    ProofCallIsJudged(codec, v, request, key, Reading(at, u, at, u, observed, prepared));
    FailedProofContext(codec, u, observed);
    EmptyInputGuards(Verifying, Repairing, None, FullContext(codec, u, u, observed));
  }

  /** What a repair needs to be left for `verifying`, as far as this history and this evidence show. */
  ghost predicate ShowsCommit(codec: Codec, u: View, e: View, observed: Observation) {
    && e.plan.Some? && observed.planIntact
    && observed.repository.clean && observed.repository.branch == Some(e.plan.value.baselineBranch)
    && CommittedSince(RepairBasis(HistoryOf(codec, u), e.gates, e.reviews), observed)
  }

  /**
   * A request that expects the present version of a session in repair leaves the repair if and only if something was
   * committed since the basis of the repair the session was in when its lifecycle was read.
   */
  lemma StaleExitIsAdmitted(
    codec: Codec, u: View, v: View, request: TransitionRequest, key: string, at: nat, later: nat, observed: Observation,
    prepared: PreparedPlan)
    requires u.task.status == Repairing && v.task.status == Repairing && v.task.blockedFrom.None?
    requires request.target == Verifying && request.input == EMPTY_INPUT
    requires request.expectedVersion == v.task.stateVersion
    ensures JudgeFresh(v, CallFrom(codec, request, key, Reading(at, u, later, v, observed, prepared))).Admit?
            <==> ShowsCommit(codec, u, v, observed)
    ensures CallFrom(codec, request, key, Reading(at, u, later, v, observed, prepared)).boundPlan.None?
  {
    hide FullContext, PhaseOf, EvaluateTransitionGuards, EvaluateSessionProof, JudgeFresh, CallFrom, RepairBasis,
      HistoryOf, CommittedSince, BuildProofGuardContext;
    ProofCallIsJudged(codec, v, request, key, Reading(at, u, later, v, observed, prepared));
    RepairGuard(EMPTY_INPUT, FullContext(codec, u, v, observed));
    FullContextFacts(codec, u, v, observed);
    EmptyInputCarriesNothing();
  }

  lemma FullContextFacts(codec: Codec, u: View, v: View, observed: Observation)
    ensures
      var context := FullContext(codec, u, v, observed);
      && context.plan == (if observed.planIntact then v.plan else None) && context.repository.Some?
      && context.repository.value.branch == observed.repository.branch
      && context.repository.value.clean == observed.repository.clean
      && context.repository.value.committedRepairFromFailure
         == CommittedSince(RepairBasis(HistoryOf(codec, u), v.gates, v.reviews), observed)
  {
    hide BuildProofGuardContext, EvaluateSessionProof, RepairBasis, CommittedSince, HistoryOf, PhaseOf;
    var proof := EvaluateSessionProof(v, Some(observed.repository.headSha), observed);
    RepairFacts(proof, observed, PhaseOf(u), HistoryOf(codec, u));
    ProofFacts(v, Some(observed.repository.headSha), observed);
  }

  // ----- from a failed proof to any number of repairs

  /** `failing` shows a failed proof after review, and `returning` a commit since the gate that really failed. */
  ghost predicate Repairable(codec: Codec, u: View, failing: Observation, returning: Observation) {
    && u.task.status == Verifying && u.task.blockedFrom.None?
    && ShowsRepair(u, failing)
    && u.plan.Some? && returning.planIntact
    && returning.repository.clean && returning.repository.branch == Some(u.plan.value.baselineBranch)
    && LatestFailure(u.gates).Some?
    && CommittedSince(Some(LatestFailure(u.gates).value.headAfter), returning)
  }

  /** The session is verifying again, and nothing a repair looks at has changed since `u` was read. */
  ghost predicate Back(u: View, v: View, repairs: nat) {
    && v.task == TaskRow(Verifying, u.task.stateVersion + 2 * repairs, None)
    && SameReceipts(u, v) && v.plan == u.plan
    && RepairCount(v.transitions) == RepairCount(u.transitions) + repairs
    && |v.audit| == |u.audit| + 4 * repairs
  }

  /** Transaction `k` enters a repair, prepared when the run was `at` long, and expects `version`. */
  ghost predicate EntersRepairFrom(c: Course, session: string, k: nat, at: nat, version: int) {
    && k < |c.steps| == |c.preparations| && c.steps[k].Deliver?
    && c.steps[k].call.request == Ask(session, Repairing, version)
    && c.preparations[k].lifecycleAt == at && c.preparations[k].evidenceAt == at
  }

  lemma EnterRepair(
    codec: Codec, c: Course, session: string, v: View, at: nat, u: View, failing: Observation, returning: Observation,
    repairs: nat)
    returns (d: Course, w: View)
    requires Stands(codec, c, session, v) && Ample(codec, v, 2) && at <= |c.steps|
    requires session in After(codec, c.steps[..at]).sessions && IsViewAt(codec, c.steps, at, session, u)
    requires Repairable(codec, u, failing, returning) && Back(u, v, repairs)
    ensures Further(c, d)
    ensures EntersRepairFrom(d, session, |c.steps|, at, v.task.stateVersion)
    ensures Stands(codec, d, session, w) && Went(codec, v, Repairing, EMPTY_INPUT, w) && w.plan == v.plan
  {
    hide After, Lawful, SeparatesEvents, CallFrom, JudgeFresh, PhaseOf, Stands, ViewOf, Went, LatestFailure,
      RepairCount, CommittedSince, EvaluateSessionProof;
    var request := Ask(session, Repairing, v.task.stateVersion);
    var p := Reading(at, u, at, u, failing, PlanRejected(""));
    forall key ensures JudgeFresh(v, CallFrom(codec, request, key, p)).Admit?
                       && CallFrom(codec, request, key, p).boundPlan.None? {
      StaleRepairIsAdmitted(codec, u, v, request, key, at, failing, PlanRejected(""));
    }
    var call;
    d, w, call := Go(codec, c, session, v, request, p);
  }

  /** A caller who sees a commit since the basis of the repair leaves it at once. */
  lemma LeaveRepair(codec: Codec, c: Course, session: string, v: View, observed: Observation)
    returns (d: Course, w: View)
    requires Stands(codec, c, session, v) && Ample(codec, v, 2)
    requires v.task.status == Repairing && v.task.blockedFrom.None? && ShowsCommit(codec, v, v, observed)
    ensures Onward(c, d)
    ensures Stands(codec, d, session, w) && Went(codec, v, Verifying, EMPTY_INPUT, w) && w.plan == v.plan
  {
    hide HistoryOf, Stands, Went, FullContext, PhaseOf, EvaluateTransitionGuards, CommittedSince, RepairBasis;
    RepairGuard(EMPTY_INPUT, FullContext(codec, v, v, observed));
    FullContextFacts(codec, v, v, observed);
    EmptyInputCarriesNothing();
    d, w := GoProof(codec, c, session, v, Verifying, EMPTY_INPUT, observed);
  }

  lemma EnteredFrom(codec: Codec, v: View, input: Json, w: View)
    requires Went(codec, v, Repairing, input, w) && v.task.status in REPAIR_ENTRY_STATES
    ensures
      var entry := CurrentRepairEntry(HistoryOf(codec, w));
      entry.Some? && entry.value.source == v.task.status && entry.value.fromVersion == v.task.stateVersion
  {
    hide HistoryOf, RepairCount, PhaseOf;
  }

  lemma FailureShowsCommit(codec: Codec, u: View, v: View, failing: Observation, returning: Observation)
    requires Repairable(codec, u, failing, returning) && SameReceipts(u, v) && v.plan == u.plan
    requires CurrentRepairEntry(HistoryOf(codec, v)).Some?
    requires CurrentRepairEntry(HistoryOf(codec, v)).value.source == Verifying
    ensures ShowsCommit(codec, v, v, returning)
  {
    hide HistoryOf, LatestFailure, CurrentRepairEntry, CommittedSince, ShowsRepair;
  }

  lemma StartsBack(codec: Codec, u: View, failing: Observation, returning: Observation)
    requires Repairable(codec, u, failing, returning)
    ensures Back(u, u, 0)
  {
    hide RepairCount, LatestFailure, ShowsRepair, CommittedSince;
  }

  /** One caller more, who read the session when the run was as long as `c`, and one more return. */
  lemma OneMoreRepair(
    codec: Codec, c: Course, b: Course, session: string, u: View, v: View, failing: Observation, returning: Observation,
    repairs: nat)
    returns (d: Course, w: View)
    requires Stands(codec, c, session, u) && Stands(codec, b, session, v) && c.steps <= b.steps
    requires Repairable(codec, u, failing, returning) && Back(u, v, repairs) && Ample(codec, v, 4)
    ensures Stands(codec, d, session, w) && Back(u, w, repairs + 1)
    ensures b.steps <= d.steps && |d.steps| == |b.steps| + 2
    ensures b.preparations <= d.preparations && |b.preparations| == |b.steps| && |d.preparations| == |d.steps|
    ensures EntersRepairFrom(d, session, |b.steps|, |c.steps|, v.task.stateVersion)
  {
    hide Stands, Ample, Repairable, After, IsViewAt, HistoryOf, RepairCount, CurrentRepairEntry, PhaseOf, ShowsCommit;
    StandsNow(codec, c, session, u);
    ReadStays(codec, c, b, session, |c.steps|, u);
    AmpleLess(codec, v, 4, v, 2);
    PreparationsAreSteps(codec, b, session, v);
    var m, x := EnterRepair(codec, b, session, v, |c.steps|, u, failing, returning, repairs);
    EnteredFrom(codec, v, EMPTY_INPUT, x);
    FailureShowsCommit(codec, u, x, failing, returning);
    AmpleLess(codec, v, 4, x, 2);
    d, w := LeaveRepair(codec, m, session, x, returning);
    assert d.steps[|b.steps|] == m.steps[|b.steps|] && d.preparations[|b.steps|] == m.preparations[|b.steps|];
  }

  /**
   * Any number of callers read the session once, on a failed proof with budget left, and each expects a version two
   * later than the one before: the version after that many repairs and returns. Every one of them is admitted. So with
   * two repairs used, two such callers bring the stored count to four.
   */
  lemma {:induction false} StaleReadsOverdraw(
    codec: Codec, c: Course, session: string, u: View, failing: Observation, returning: Observation, n: nat)
    returns (d: Course, w: View)
    requires Stands(codec, c, session, u) && Ample(codec, u, 4 * n) && Repairable(codec, u, failing, returning)
    ensures Stands(codec, d, session, w) && Back(u, w, n)
    ensures c.steps <= d.steps && |d.steps| == |d.preparations| == |c.steps| + 2 * n
    ensures forall i :: 0 <= i < n ==>
              EntersRepairFrom(d, session, |c.steps| + 2 * i, |c.steps|, u.task.stateVersion + 2 * i)
  {
    hide Stands, Ample, Repairable, After, IsViewAt, RepairCount;
    if n == 0 {
      d, w := c, u;
      PreparationsAreSteps(codec, c, session, u);
      StartsBack(codec, u, failing, returning);
    } else {
      AmpleLess(codec, u, 4 * n, u, 4 * (n - 1));
      var b, v := StaleReadsOverdraw(codec, c, session, u, failing, returning, n - 1);
      AmpleLess(codec, u, 4 * n, v, 4);
      d, w := OneMoreRepair(codec, c, b, session, u, v, failing, returning, n - 1);
      forall i | 0 <= i < n
        ensures EntersRepairFrom(d, session, |c.steps| + 2 * i, |c.steps|, u.task.stateVersion + 2 * i)
      {
        var k := |c.steps| + 2 * i;
        if i < n - 1 { assert d.steps[k] == b.steps[k] && d.preparations[k] == b.preparations[k]; }
      }
    }
  }

  // ----- out of a stranded repair

  /**
   * The lifecycle is read during an earlier repair, everything else once the session is stranded in a later one: a
   * request that expects the present version leaves, on the commit the earlier repair was to start from.
   */
  lemma StaleExitLeaves(
    codec: Codec, c: Course, session: string, v: View, at: nat, u: View, observed: Observation)
    returns (d: Course, w: View)
    requires Stands(codec, c, session, v) && StrandedAt(codec, c.steps, session) && Ample(codec, v, 2)
    requires v.task.status == Repairing && v.task.blockedFrom.None? && at <= |c.steps|
    requires session in After(codec, c.steps[..at]).sessions && IsViewAt(codec, c.steps, at, session, u)
    requires u.task.status == Repairing && ShowsCommit(codec, u, v, observed)
    ensures Stands(codec, d, session, w) && c.steps <= d.steps && |d.steps| == |c.steps| + 1
    ensures w.task == TaskRow(Verifying, v.task.stateVersion + 1, None) && !StrandedAt(codec, d.steps, session)
    ensures d.steps[|c.steps|].Deliver?
            && d.steps[|c.steps|].call.request == Ask(session, Verifying, v.task.stateVersion)
  {
    hide After, Lawful, SeparatesEvents, HistoryOf, CallFrom, JudgeFresh, PhaseOf, Stands, ViewOf, ShowsCommit,
      StrandedAt, RepairCount;
    var request := Ask(session, Verifying, v.task.stateVersion);
    var p := Reading(at, u, |c.steps|, v, observed, PlanRejected(""));
    StandsNow(codec, c, session, v);
    forall key ensures JudgeFresh(v, CallFrom(codec, request, key, p)).Admit?
                       && CallFrom(codec, request, key, p).boundPlan.None? {
      StaleExitIsAdmitted(codec, u, v, request, key, at, |c.steps|, observed, PlanRejected(""));
    }
    var call;
    d, w, call := Go(codec, c, session, v, request, p);
    StandsIsReachable(codec, d, session, w);
    VerifyingIsNotStranded(codec, d.steps, session);
  }

  lemma VerifyingIsNotStranded(codec: Codec, steps: seq<Step>, session: string)
    requires Known(After(codec, steps), session)
    requires ViewOf(After(codec, steps), session).task.status == Verifying
    ensures !StrandedAt(codec, steps, session)
  {
    hide After, HistoryOf, LatestFailure;
  }
}

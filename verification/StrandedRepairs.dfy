/**
 * A repair that failed local proof opened, when no gate really failed on one commit, is never left: an invalidated run
 * makes the proof `failed`, but is no commit a repair could start from.
 */
module StrandedRepairs {
  import opened Options
  import opened Lifecycle
  import opened SessionTransition
  import opened ProofEvidence
  import opened AuditLedger
  import opened Rows
  import opened StoreTables
  import opened SessionStore
  import opened StoreInvariant
  import opened StoreSteps
  import opened StoreRuns
  import opened SessionService
  import opened ServiceRuns
  import opened ServedTraces
  import opened StoredEvidence
  import opened EvidenceTables
  import opened PlannedTransitions

  /** Repairing, or blocked while repairing. */
  predicate InRepair(task: TaskRow) {
    task.status == Repairing || (task.status == Blocked && task.blockedFrom == Some(Repairing))
  }

  /** In a repair opened from `verifying`, with no commit on record to start it from. */
  ghost predicate Stranded(codec: Codec, v: View) {
    && InRepair(v.task)
    && var entry := CurrentRepairEntry(HistoryOf(codec, v));
    && entry.Some? && entry.value.source == Verifying
    && LatestFailure(v.gates).None?
  }

  ghost predicate StrandedAt(codec: Codec, steps: seq<Step>, session: string) {
    && session in After(codec, steps).sessions
    && Known(After(codec, steps), session)
    && Stranded(codec, ViewOf(After(codec, steps), session))
  }

  // ----- gate receipts are recorded while verifying, and at no other time

  lemma GateAppends(codec: Codec, db: Tables, session: string, gate: GateReceipt, eventId: string, now: int)
    ensures
      var after := AppendGate(codec, db, session, gate, eventId, now).0;
      || after.gates == db.gates
      || (&& Known(db, session) && ViewOf(db, session).task.status == Verifying
          && exists row: GateReceipt :: after.gates == db.gates + [Row(session, row)])
  {
    hide AuthorityHolds, NextEvent, EventCollides, EventIdTaken;
  }

  lemma GatesNeedVerifying(codec: Codec, db: Tables, step: Step, session: string)
    requires Known(db, session) && ViewOf(db, session).task.status != Verifying
    ensures Of(Next(codec, db, step).gates, session) == Of(db.gates, session)
  {
    hide ApplyTransition, AppendGate, StartSession, AppendSignedGate, AppendReview, ViewOf;
    match step
    case Deliver(call, supply) =>
      NextIsApply(codec, db, step);
      TransitionLeavesEvidence(codec, db, call, supply);
    case RecordGate(owner, gate, eventId, now) =>
      GateAppends(codec, db, owner, gate, eventId, now);
      if Next(codec, db, step).gates != db.gates {
        var row: GateReceipt :| Next(codec, db, step).gates == db.gates + [Row(owner, row)];
        OfAppend(db.gates, Row(owner, row));
      }
    case _ => EvidenceIsAppended(codec, db, step);
  }

  // ----- one step

  lemma StrandedDependsOn(codec: Codec, session: string, v: View, w: View)
    requires SessionInv(codec, session, v) && SessionInv(codec, session, w)
    requires v.transitions == w.transitions && v.gates == w.gates && Stranded(codec, v)
    ensures Stranded(codec, w)
  {
    hide SessionInv, OrderBy, LatestFailure, CurrentRepairEntry;
    VersionIsLength(codec, session, v);
    VersionIsLength(codec, session, w);
  }

  /** From a stranded repair the graph and the guards leave blocking, and from there the way back, and nothing else. */
  lemma OnlyBlockingIsLeft(codec: Codec, v: View, call: TransitionCall, p: Preparation)
    requires Stranded(codec, v)
    requires ContextOf(call) == ContextOf(Instant(codec, v, call, p)) || ContextOf(call) == EMPTY_CONTEXT
    requires EvaluateLifecycleTransition(
               v.task.status, call.request.target, v.task.blockedFrom, Some(PhaseOf(v))).TransitionAllowed?
    requires EvaluateTransitionGuards(
               v.task.status, call.request.target, call.request.input, v.task.blockedFrom,
               ContextOf(call)).GuardsAllowed?
    requires v.task.status != Blocked ==> v.task.blockedFrom.None?
    ensures call.request.target == if v.task.status == Blocked then Repairing else Blocked
  {
    hide EvaluateTransitionGuards, PhaseOf, HistoryOf, CurrentRepairEntry, LatestFailure, FullContext, PrepareCall,
      CommittedSince;
    if v.task.status == Repairing && call.request.target == Verifying {
      RepairContext(codec, v, call, p);
      RepairLeavesExactly(codec, v, v, p.observed, call.request.input);
      RepairGuard(call.request.input, EMPTY_CONTEXT);
    }
  }

  lemma RepairContext(codec: Codec, v: View, call: TransitionCall, p: Preparation)
    requires v.task.status == Repairing && call.request.target == Verifying
    ensures ContextOf(Instant(codec, v, call, p)) == FullContext(codec, v, v, p.observed)
  {
    hide FullContext, ReadWatermark, EvaluateSessionProof;
  }

  lemma RowKeepsRepairEntry(codec: Codec, session: string, v: View, w: View, row: Transition)
    requires SessionInv(codec, session, v) && SessionInv(codec, session, w)
    requires w.transitions == v.transitions + [row] && w.gates == v.gates && Stranded(codec, v)
    requires row.source == v.task.status && row.target == if v.task.status == Blocked then Repairing else Blocked
    ensures Stranded(codec, w)
  {
    hide SessionInv, HistoryOf, LatestFailure, CurrentRepairEntry;
    HistoryOfView(codec, session, v);
    HistoryOfView(codec, session, w);
    VersionIsLength(codec, session, v);
    VersionIsLength(codec, session, w);
    assert w.transitions[|v.transitions|] == row;
    assert ToHistory(codec, w.transitions) == ToHistory(codec, v.transitions) + [EntryOf(codec, row)];
    RepairEntrySurvives(ToHistory(codec, v.transitions), [EntryOf(codec, row)]);
  }

  lemma StrandedAdmission(codec: Codec, steps: seq<Step>, preparations: seq<Preparation>, k: nat)
    requires Lawful(codec) && Serviced(codec, steps, preparations) && Prompted(steps, preparations)
    requires k < |steps| && steps[k].Deliver? && StrandedAt(codec, steps[..k], steps[k].call.request.sessionId)
    requires Admits(codec, After(codec, steps[..k]), steps[k].call, steps[k].supply)
    ensures
      var v := ViewOf(After(codec, steps[..k]), steps[k].call.request.sessionId);
      steps[k].call.request.target == if v.task.status == Blocked then Repairing else Blocked
  {
    hide After, ViewOf, PreparedBy, SessionInv, PhaseOf, EvaluateTransitionGuards, EvaluateLifecycleTransition,
      ReadWatermark, Instant, CurrentRepairEntry, LatestFailure, Judge, RecordAdmission, HistoryOf;
    var call, p := steps[k].call, preparations[k];
    var session := call.request.sessionId;
    var v := ViewOf(After(codec, steps[..k]), session);
    AdmissionAt(codec, steps, k);
    if p.taken.lifecycle.Some? {
      PreparationIsExact(codec, steps, k, call, p);
    } else {
      UnknownSessionIsBare(codec, steps, k, call, p);
    }
    KnownAt(codec, steps[..k], session);
    UnblockedHasNoPrior(codec, session, v);
    OnlyBlockingIsLeft(codec, v, call, p);
  }

  /** What an admission adds to the session's history, and that it adds no receipt. */
  lemma AdmissionAdds(codec: Codec, db: Tables, call: TransitionCall, supply: Supply, session: string)
    requires TablesInv(db) && Known(db, session) && Admits(codec, db, call, supply)
    ensures
      var after := ApplyTransition(codec, db, call, supply).0;
      && Of(after.transitions, session)
         == Of(db.transitions, session)
            + (if call.request.sessionId == session then [AppliedRow(codec, ViewOf(db, session), call, supply)] else [])
      && after.gates == db.gates
  {
    hide ApplyTransition, TablesInv, Judge, RecordAdmission, AppliedRow;
    AdmissionWrites(codec, db, call, supply);
    TransitionLeavesEvidence(codec, db, call, supply);
    var owner := call.request.sessionId;
    OfAppend(db.transitions, Row(owner, AppliedRow(codec, ViewOf(db, owner), call, supply)));
  }

  /** One transaction of a serviced run neither leaves a stranded repair nor records a failure it could leave by. */
  lemma StrandedStep(codec: Codec, steps: seq<Step>, preparations: seq<Preparation>, session: string)
    requires Lawful(codec) && Serviced(codec, steps, preparations) && Prompted(steps, preparations)
    requires steps != [] && StrandedAt(codec, steps[..|steps| - 1], session)
    ensures StrandedAt(codec, steps, session)
  {
    hide After, Serviced, Prompted, Stranded, Admits, Next, SessionInv, ApplyTransition, TablesInv, StoreInv, Grows;
    var n := |steps| - 1;
    var db, step := After(codec, steps[..n]), steps[n];
    ReachableInv(codec, steps[..n]);
    KnownTables(codec, db);
    KnownAt(codec, steps[..n], session);
    assert steps == steps[..n] + [step];
    AfterStep(codec, steps[..n], step);
    OneStepGrows(codec, steps[..n], step, session);
    KnownAt(codec, steps, session);
    var v, w := ViewOf(db, session), ViewOf(After(codec, steps), session);
    StrandedIsNotVerifying(codec, v);
    GatesNeedVerifying(codec, db, step, session);
    if step.Deliver? && Admits(codec, db, step.call, step.supply) {
      NextIsApply(codec, db, step);
      AdmissionAdds(codec, db, step.call, step.supply, session);
      if step.call.request.sessionId == session {
        StrandedAdmission(codec, steps, preparations, n);
        RowKeepsRepairEntry(codec, session, v, w, AppliedRow(codec, v, step.call, step.supply));
      } else {
        StrandedDependsOn(codec, session, v, w);
      }
    } else {
      OtherStepsApplyNothing(codec, db, step);
      StrandedDependsOn(codec, session, v, w);
    }
  }

  lemma StrandedIsNotVerifying(codec: Codec, v: View)
    requires Stranded(codec, v)
    ensures v.task.status != Verifying
  {
  }

  // ----- every run

  /**
   * In every serviced run whose callers expect what was read: once a repair was opened from `verifying` and no recorded
   * gate really failed on one commit, the session stays in `repairing`, or blocked from it, for ever.
   */
  lemma {:induction false} StrandedRepairStays(
    codec: Codec, steps: seq<Step>, preparations: seq<Preparation>, k: nat, session: string)
    requires Lawful(codec) && Serviced(codec, steps, preparations) && Prompted(steps, preparations)
    requires k <= |steps| && StrandedAt(codec, steps[..k], session)
    ensures StrandedAt(codec, steps, session)
  {
    hide Serviced, Prompted, StrandedAt;
    if k == |steps| {
      assert steps[..k] == steps;
    } else {
      var n := |steps| - 1;
      ServicedPrefix(codec, steps, preparations, n);
      assert steps[..n][..k] == steps[..k];
      StrandedRepairStays(codec, steps[..n], preparations[..n], k, session);
      StrandedStep(codec, steps, preparations, session);
    }
  }

  // ----- how a session gets there

  /**
   * The planner itself proposes the way in: whenever the proof is `failed` after review with budget left, `repairing`
   * is the one executable candidate, whether or not any gate failed on one commit.
   */
  lemma StrandingIsProposed(codec: Codec, v: View, observed: Observation)
    requires v.task.status == Verifying && PhaseOf(v) == PostPr && RepairCount(v.transitions) < REPAIR_BUDGET
    requires EvaluateSessionProof(v, Some(observed.repository.headSha), observed).evidence == Failed
    ensures PlanNext(codec, v, observed).candidate == Some(Candidate(Verifying, Repairing, v.task.stateVersion, true))
  {
    hide EvaluateProofEvidence, EvaluateCiProofEvidence, EvaluateReviewEvidence, ImplementationBasisOf, RepairBasis,
      PhaseOf, HistoryOf, CommittedSince, PlanNextTransition, EvaluateTransitionGuards;
    var proof := EvaluateSessionProof(v, Some(observed.repository.headSha), observed);
    var context := FullContext(codec, v, v, observed);
    FullContextAgrees(codec, v, observed);
    EmptyInputGuards(Verifying, Repairing, v.task.blockedFrom, context);
    PlannerIsExact(
      Verifying, v.task.stateVersion, v.task.blockedFrom, PhaseOf(v), proof.evidence, proof.attemptsUsed, context,
      Repairing);
  }

  /** Taking that step with no real failure on record strands the session. */
  lemma EntryStrands(codec: Codec, steps: seq<Step>, k: nat)
    requires Lawful(codec) && k < |steps| && steps[k].Deliver? && steps[k].call.request.target == Repairing
    requires Admits(codec, After(codec, steps[..k]), steps[k].call, steps[k].supply)
    requires
      var v := ViewOf(After(codec, steps[..k]), steps[k].call.request.sessionId);
      v.task.status == Verifying && LatestFailure(v.gates).None?
    ensures StrandedAt(codec, steps[..k + 1], steps[k].call.request.sessionId)
  {
    hide After, Admits, Next, SessionInv, ApplyTransition, TablesInv, StoreInv, HistoryOf, LatestFailure, Grows;
    var call, supply, db := steps[k].call, steps[k].supply, After(codec, steps[..k]);
    var session := call.request.sessionId;
    ReachableInv(codec, steps[..k]);
    KnownTables(codec, db);
    AdmitsKnown(codec, db, call, supply);
    KnownAt(codec, steps[..k], session);
    assert steps[..k + 1] == steps[..k] + [steps[k]];
    AfterStep(codec, steps[..k], steps[k]);
    OneStepGrows(codec, steps[..k], steps[k], session);
    KnownAt(codec, steps[..k + 1], session);
    NextIsApply(codec, db, steps[k]);
    AdmissionAdds(codec, db, call, supply, session);
    EntryIsLast(codec, session, ViewOf(db, session), ViewOf(After(codec, steps[..k + 1]), session), call, supply);
  }

  lemma EntryIsLast(codec: Codec, session: string, v: View, w: View, call: TransitionCall, supply: Supply)
    requires SessionInv(codec, session, w) && v.task.status == Verifying && call.request.target == Repairing
    requires w.transitions == v.transitions + [AppliedRow(codec, v, call, supply)] && w.gates == v.gates
    requires LatestFailure(v.gates).None?
    ensures Stranded(codec, w)
  {
    hide SessionInv, HistoryOf, LatestFailure;
    HistoryOfView(codec, session, w);
    VersionIsLength(codec, session, w);
    assert w.transitions[|v.transitions|] == AppliedRow(codec, v, call, supply);
  }
}

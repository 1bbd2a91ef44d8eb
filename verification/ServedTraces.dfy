/** The histories of SessionTrace.dfy are exactly what serviced runs leave in the store. */
module ServedTraces {
  import opened Options
  import opened Lifecycle
  import opened SessionTransition
  import opened SessionTrace
  import opened ProofEvidence
  import opened AuditLedger
  import opened Rows
  import opened StoreTables
  import opened SessionStore
  import opened StoreInvariant
  import opened StoreSteps
  import opened StoreRuns
  import opened SessionService
  import opened ServiceRuns

  /** The transaction commits the transition. */
  ghost predicate Admits(codec: Codec, db: Tables, call: TransitionCall, supply: Supply) {
    && Known(db, call.request.sessionId)
    && Judge(codec, db, call).Admit?
    && RecordAdmission(codec, db, call, supply).Some?
  }

  function ContextOf(call: TransitionCall): GuardContext {
    match call.guards
    case UnderContext(context) => context
    case PreparedRejection(_) => EMPTY_CONTEXT
  }

  ghost function AppliedBy(db: Tables, call: TransitionCall): Applied
    requires Known(db, call.request.sessionId)
  {
    Applied(ViewOf(db, call.request.sessionId).task.status, call.request.target, call.request.input, ContextOf(call))
  }

  /** The transitions a run applied to one session. */
  ghost function TraceOf(codec: Codec, steps: seq<Step>, session: string): seq<Applied> {
    if steps == [] then []
    else
      var n := |steps| - 1;
      var before, step := After(codec, steps[..n]), steps[n];
      TraceOf(codec, steps[..n], session)
      + if step.Deliver? && step.call.request.sessionId == session && Admits(codec, before, step.call, step.supply)
        then [AppliedBy(before, step.call)] else []
  }

  /** The plan under which a history crossed `framed -> proof_ready`. */
  ghost function PlanBoundBy(trace: seq<Applied>): Option<BoundPlan> {
    if trace == [] then None
    else
      var last := trace[|trace| - 1];
      if IsStep(last, Framed, ProofReady) then last.context.boundPlan else PlanBoundBy(trace[..|trace| - 1])
  }

  ghost predicate Describes(trace: seq<Applied>, rows: seq<Transition>) {
    && |trace| == |rows|
    && forall i :: 0 <= i < |rows| ==> trace[i].source == rows[i].source && trace[i].target == rows[i].target
  }

  function PlanIn(db: Tables, session: string): Option<BoundPlan> {
    if session in db.plans then Some(db.plans[session]) else None
  }

  // ----- only an admission changes a history or a plan

  lemma AppendsApplyNothing(codec: Codec, db: Tables, step: Step)
    requires !step.Deliver?
    ensures Next(codec, db, step).transitions == db.transitions && Next(codec, db, step).plans == db.plans
  {
    hide AppendContext, ReviewAdvances, NextEvent, EventCollides, EventIdTaken, OpenSessions, SoleSession;
  }

  lemma RejectedAppliesNothing(codec: Codec, db: Tables, call: TransitionCall, supply: Supply)
    requires Judge(codec, db, call).Admit? ==>
               Known(db, call.request.sessionId) && RecordAdmission(codec, db, call, supply).None?
    ensures
      var after := ApplyTransition(codec, db, call, supply).0;
      after.transitions == db.transitions && after.plans == db.plans
  {
    hide AuthorityHolds, JudgeFresh, RowCorrupt, RecordAdmission, NextEvent, EventCollides, EventIdTaken, ViewOf;
  }

  lemma OtherStepsApplyNothing(codec: Codec, db: Tables, step: Step)
    requires step.Deliver? ==> !Admits(codec, db, step.call, step.supply)
    requires TablesInv(db)
    ensures Next(codec, db, step).transitions == db.transitions && Next(codec, db, step).plans == db.plans
  {
    hide TablesInv, Judge, RecordAdmission, ApplyTransition, StartSession, AppendGate, AppendSignedGate, AppendReview;
    if step.Deliver? {
      if Judge(codec, db, step.call).Admit? { AdmitIsKnown(codec, db, step.call); }
      RejectedAppliesNothing(codec, db, step.call, step.supply);
    } else {
      AppendsApplyNothing(codec, db, step);
    }
  }

  lemma AdmitIsKnown(codec: Codec, db: Tables, call: TransitionCall)
    requires Judge(codec, db, call).Admit? && TablesInv(db)
    ensures Known(db, call.request.sessionId)
    ensures FindDecision(ViewOf(db, call.request.sessionId).decisions, call.key).None?
    ensures JudgeFresh(ViewOf(db, call.request.sessionId), call).Admit?
  {
    hide AuthorityHolds, JudgeFresh, RowCorrupt;
    JudgedOnView(codec, db, call);
  }

  lemma AdmissionWrites(codec: Codec, db: Tables, call: TransitionCall, supply: Supply)
    requires Admits(codec, db, call, supply)
    ensures
      var session := call.request.sessionId;
      var after := ApplyTransition(codec, db, call, supply).0;
      && after.transitions
         == db.transitions + [Row(session, AppliedRow(codec, ViewOf(db, session), call, supply))]
      && after.plans == (if call.boundPlan.Some? then db.plans[session := call.boundPlan.value] else db.plans)
  {
    hide Judge, ViewOf, AppliedRow, AppliedTask, AppliedDecision, TransitionCollides;
    AdmittedFields(codec, db, call, supply);
  }

  lemma AdmissionReachesGuards(codec: Codec, db: Tables, call: TransitionCall)
    requires Judge(codec, db, call).Admit? && TablesInv(db)
    ensures Known(db, call.request.sessionId) && ReachesGuards(codec, db, call)
    ensures call.guards.UnderContext?
    ensures
      var v := ViewOf(db, call.request.sessionId);
      && EvaluateTransitionGuards(
           v.task.status, call.request.target, call.request.input, v.task.blockedFrom, ContextOf(call)).GuardsAllowed?
      && (call.boundPlan.Some? ==> v.task.status == Framed && call.request.target == ProofReady)
  {
    hide EvaluateTransitionGuards, EvaluateLifecycleTransition, ReadWatermark, PhaseOf, AuthorityHolds, RowCorrupt,
      ViewOf;
    AdmitIsKnown(codec, db, call);
  }

  // ----- what a prepared context says about the session

  /** The context is not ahead of the session. */
  ghost predicate DatedIn(context: GuardContext, v: View) {
    context.phase == Some(PostPr) ==> PhaseOf(v) == PostPr
  }

  ghost predicate FreshIn(context: GuardContext, v: View) {
    && (context.phase.Some? ==> context.phase.value == PhaseOf(v))
    && (context.attemptsUsed.Some? ==> context.attemptsUsed.value == RepairCount(v.transitions))
  }

  lemma PreparedPhase(
    codec: Codec, request: TransitionRequest, key: string, known: bool, taken: Snapshots, observed: Observation,
    prepared: PreparedPlan)
    ensures
      var context := ContextOf(PrepareCall(codec, request, key, known, taken, observed, prepared));
      context.phase.Some? ==> taken.lifecycle.Some? && context.phase.value == PhaseOf(taken.lifecycle.value)
  {
    hide EvaluateSessionProof, ImplementationBasisOf, RepairBasis, PhaseOf, ReadWatermark, HistoryOf, CommittedSince;
  }

  lemma PhaseStays(codec: Codec, session: string, u: View, v: View)
    requires SessionInv(codec, session, u) && SessionInv(codec, session, v) && u.transitions <= v.transitions
    ensures PhaseOf(u) == PostPr ==> PhaseOf(v) == PostPr
  {
    hide SessionInv, PhaseOf;
    PhaseOfInv(codec, session, u);
    PhaseOfInv(codec, session, v);
  }

  /**
   * Whatever version its caller expects, a prepared context is not ahead of the session, and shows the plan it binds.
   */
  lemma PreparedContextIsDated(codec: Codec, steps: seq<Step>, k: nat, call: TransitionCall, p: Preparation)
    requires Lawful(codec) && k <= |steps| && PreparedBy(codec, steps, k, call, p)
    requires ReachesGuards(codec, After(codec, steps[..k]), call)
    ensures DatedIn(ContextOf(call), ViewOf(After(codec, steps[..k]), call.request.sessionId))
    ensures call.guards.UnderContext? ==> ContextOf(call).boundPlan == call.boundPlan
  {
    hide After, ViewOf, SessionInv, PhaseOf, PrepareCall, EvaluateLifecycleTransition, ReadWatermark, KeyRecordedAt;
    var session := call.request.sessionId;
    var known := KeyRecordedAt(codec, steps, p.keyAt, session, call.key);
    GuardsSeeThePlan(codec, call.request, call.key, known, p.taken, p.observed, p.prepared);
    PreparedPhase(codec, call.request, call.key, known, p.taken, p.observed, p.prepared);
    if p.taken.lifecycle.Some? {
      HistoryIsCurrent(codec, steps, call, p.lifecycleAt, k);
      RunGrows(codec, steps, p.lifecycleAt, k, session);
      KnownAt(codec, steps[..p.lifecycleAt], session);
      PresentAfter(After(codec, steps[..p.lifecycleAt]), After(codec, steps[..k]), session);
      KnownAt(codec, steps[..k], session);
      PhaseStays(codec, session, p.taken.lifecycle.value, ViewOf(After(codec, steps[..k]), session));
    }
  }

  lemma InstantContextIsFresh(codec: Codec, v: View, call: TransitionCall, p: Preparation)
    ensures FreshIn(ContextOf(Instant(codec, v, call, p)), v)
  {
    hide EvaluateProofEvidence, EvaluateCiProofEvidence, EvaluateReviewEvidence, ImplementationBasisOf, RepairBasis,
      PhaseOf, ReadWatermark, HistoryOf;
  }

  lemma AdmittedContextIsDated(codec: Codec, steps: seq<Step>, preparations: seq<Preparation>, k: nat)
    requires Lawful(codec) && Serviced(codec, steps, preparations)
    requires k < |steps| && steps[k].Deliver?
    requires Admits(codec, After(codec, steps[..k]), steps[k].call, steps[k].supply)
    ensures
      var call := steps[k].call;
      var v := ViewOf(After(codec, steps[..k]), call.request.sessionId);
      DatedIn(ContextOf(call), v) && ContextOf(call).boundPlan == call.boundPlan
  {
    hide After, ViewOf, Judge, RecordAdmission, PhaseOf, PreparedBy, ReachesGuards, DatedIn;
    AdmissionAt(codec, steps, k);
    PreparedContextIsDated(codec, steps, k, steps[k].call, preparations[k]);
  }

  lemma AdmissionAt(codec: Codec, steps: seq<Step>, k: nat)
    requires Lawful(codec) && k < |steps| && steps[k].Deliver?
    requires Admits(codec, After(codec, steps[..k]), steps[k].call, steps[k].supply)
    ensures ReachesGuards(codec, After(codec, steps[..k]), steps[k].call) && steps[k].call.guards.UnderContext?
    ensures
      var call := steps[k].call;
      var v := ViewOf(After(codec, steps[..k]), call.request.sessionId);
      && EvaluateTransitionGuards(
           v.task.status, call.request.target, call.request.input, v.task.blockedFrom, ContextOf(call)).GuardsAllowed?
      && (call.boundPlan.Some? ==> v.task.status == Framed && call.request.target == ProofReady)
  {
    hide After, ViewOf, Judge, RecordAdmission, PhaseOf, ReachesGuards, EvaluateTransitionGuards;
    ReachableInv(codec, steps[..k]);
    KnownTables(codec, After(codec, steps[..k]));
    AdmissionReachesGuards(codec, After(codec, steps[..k]), steps[k].call);
  }

  /** When its caller expects what was read, the context of an admitted call is true inside the transaction. */
  lemma AdmittedContextIsFresh(codec: Codec, steps: seq<Step>, preparations: seq<Preparation>, k: nat)
    requires Lawful(codec) && Serviced(codec, steps, preparations) && Prompted(steps, preparations)
    requires k < |steps| && steps[k].Deliver?
    requires Admits(codec, After(codec, steps[..k]), steps[k].call, steps[k].supply)
    ensures FreshIn(ContextOf(steps[k].call), ViewOf(After(codec, steps[..k]), steps[k].call.request.sessionId))
  {
    hide After, ViewOf, Judge, RecordAdmission, PhaseOf, PreparedBy, ReachesGuards, Instant;
    var call, p := steps[k].call, preparations[k];
    AdmissionAt(codec, steps, k);
    if p.taken.lifecycle.Some? {
      PreparationIsExact(codec, steps, k, call, p);
      InstantContextIsFresh(codec, ViewOf(After(codec, steps[..k]), call.request.sessionId), call, p);
    } else {
      UnknownSessionIsBare(codec, steps, k, call, p);
    }
  }

  lemma UnknownSessionIsBare(codec: Codec, steps: seq<Step>, k: nat, call: TransitionCall, p: Preparation)
    requires k <= |steps| && PreparedBy(codec, steps, k, call, p) && p.taken.lifecycle.None?
    ensures call.guards == UnderContext(EMPTY_CONTEXT) && call.boundPlan.None? && call.watermark.None?
  {
    hide After, KeyRecordedAt;
  }

  // ----- the store's history is the trace

  lemma {:induction false} TraceMatchesStore(
    codec: Codec, steps: seq<Step>, preparations: seq<Preparation>, session: string)
    requires Lawful(codec) && Serviced(codec, steps, preparations)
    ensures Describes(TraceOf(codec, steps, session), Of(After(codec, steps).transitions, session))
    ensures PlanIn(After(codec, steps), session) == PlanBoundBy(TraceOf(codec, steps, session))
  {
    hide Serviced, Describes, PlanBoundBy, Admits, ApplyTransition, StartSession, AppendGate, AppendSignedGate,
      AppendReview, Lawful, TablesInv, StoreInv;
    if steps != [] {
      var n := |steps| - 1;
      ServicedPrefix(codec, steps, preparations, n);
      TraceMatchesStore(codec, steps[..n], preparations[..n], session);
      var db, step := After(codec, steps[..n]), steps[n];
      ReachableInv(codec, steps[..n]);
      KnownTables(codec, db);
      if step.Deliver? && Admits(codec, db, step.call, step.supply) {
        AdmittedContextIsDated(codec, steps, preparations, n);
        AdmissionExtendsTrace(codec, db, step.call, step.supply, session, TraceOf(codec, steps[..n], session));
      } else {
        OtherStepsApplyNothing(codec, db, step);
        assert TraceOf(codec, steps, session) == TraceOf(codec, steps[..n], session);
      }
    } else {
      EmptyTrace();
    }
  }

  lemma EmptyTrace()
    ensures Describes([], []) && PlanBoundBy([]) == None
  {
  }

  lemma ServicedPrefix(codec: Codec, steps: seq<Step>, preparations: seq<Preparation>, n: nat)
    requires Serviced(codec, steps, preparations) && n <= |steps|
    ensures |preparations| == |steps| && Serviced(codec, steps[..n], preparations[..n])
    ensures Prompted(steps, preparations) ==> Prompted(steps[..n], preparations[..n])
  {
    hide After, PrepareCall, ExpectsWhatWasRead;
    forall k | 0 <= k < n && steps[k].Deliver?
      ensures PreparedBy(codec, steps[..n], k, steps[k].call, preparations[k])
    {
      var p := preparations[k];
      assert steps[..n][..p.lifecycleAt] == steps[..p.lifecycleAt] && steps[..n][..p.keyAt] == steps[..p.keyAt];
      assert steps[..n][..p.watermarkAt] == steps[..p.watermarkAt];
      assert steps[..n][..p.preliminaryAt] == steps[..p.preliminaryAt];
      assert steps[..n][..p.evidenceAt] == steps[..p.evidenceAt];
    }
  }

  lemma AdmissionExtendsTrace(
    codec: Codec, db: Tables, call: TransitionCall, supply: Supply, session: string, trace: seq<Applied>)
    requires TablesInv(db) && Admits(codec, db, call, supply)
    requires Describes(trace, Of(db.transitions, session)) && PlanIn(db, session) == PlanBoundBy(trace)
    requires ViewOf(db, call.request.sessionId).task.status == Framed && call.request.target == ProofReady ==>
               ContextOf(call).boundPlan == call.boundPlan
    ensures
      var after := ApplyTransition(codec, db, call, supply).0;
      var longer := trace + if call.request.sessionId == session then [AppliedBy(db, call)] else [];
      Describes(longer, Of(after.transitions, session)) && PlanIn(after, session) == PlanBoundBy(longer)
  {
    hide TablesInv, ApplyTransition, Judge, RecordAdmission, EvaluateTransitionGuards, ReachesGuards;
    AdmissionWrites(codec, db, call, supply);
    AdmissionReachesGuards(codec, db, call);
    var own := call.request.sessionId;
    OfAppend(db.transitions, Row(own, AppliedRow(codec, ViewOf(db, own), call, supply)));
    if own == session {
      var step := AppliedBy(db, call);
      assert (trace + [step])[..|trace|] == trace;
      PlanStepBindsPlan(step, ViewOf(db, own).task.blockedFrom);
    } else {
      assert trace + [] == trace;
    }
  }

  // ----- what a described history says about the view

  lemma {:induction false} RepairsCounted(trace: seq<Applied>, rows: seq<Transition>)
    requires Describes(trace, rows)
    ensures RepairEntries(trace) == RepairCount(rows)
  {
    if rows != [] { RepairsCounted(trace[..|trace| - 1], rows[..|rows| - 1]); }
  }

  lemma DescribedView(codec: Codec, session: string, v: View, trace: seq<Applied>)
    requires SessionInv(codec, session, v) && Describes(trace, v.transitions)
    ensures StateAfter(trace) == v.task.status
    ensures BlockedFromAfter(trace) == v.task.blockedFrom
    ensures PhaseAfter(trace) == PhaseOf(v)
    ensures RepairEntries(trace) == RepairCount(v.transitions)
  {
    hide HistoryTargets, SessionInv, PhaseOf, RepairCount, RepairEntries;
    RepairsCounted(trace, v.transitions);
    VersionIsLength(codec, session, v);
    PhaseOfInv(codec, session, v);
    assert forall i :: 0 <= i < |trace| ==> Targets(trace)[i] == v.transitions[i].target;
  }

  // ----- every serviced run leaves a valid history

  lemma JustifiedByView(before: seq<Applied>, v: View, call: TransitionCall, step: Applied)
    requires StateAfter(before) == v.task.status && BlockedFromAfter(before) == v.task.blockedFrom
    requires PhaseAfter(before) == PhaseOf(v) && RepairEntries(before) == RepairCount(v.transitions)
    requires step == Applied(v.task.status, call.request.target, call.request.input, ContextOf(call))
    requires EvaluateLifecycleTransition(
               v.task.status, call.request.target, v.task.blockedFrom, Some(PhaseOf(v))).TransitionAllowed?
    requires EvaluateTransitionGuards(
               v.task.status, call.request.target, call.request.input, v.task.blockedFrom,
               ContextOf(call)).GuardsAllowed?
    requires DatedIn(ContextOf(call), v)
    ensures Justified(before, step)
    ensures FreshIn(ContextOf(call), v) ==> Fresh(step.context, before)
  {
    hide EvaluateLifecycleTransition, EvaluateTransitionGuards, PhaseOf, PhaseAfter, RepairEntries, RepairCount;
  }

  lemma AdmissionIsJustified(
    codec: Codec, steps: seq<Step>, preparations: seq<Preparation>, k: nat, before: seq<Applied>)
    requires Lawful(codec) && Serviced(codec, steps, preparations)
    requires k < |steps| && steps[k].Deliver?
    requires Admits(codec, After(codec, steps[..k]), steps[k].call, steps[k].supply)
    requires Describes(before, Of(After(codec, steps[..k]).transitions, steps[k].call.request.sessionId))
    ensures Known(After(codec, steps[..k]), steps[k].call.request.sessionId)
    ensures Justified(before, AppliedBy(After(codec, steps[..k]), steps[k].call))
    ensures Prompted(steps, preparations) ==>
              Fresh(AppliedBy(After(codec, steps[..k]), steps[k].call).context, before)
  {
    hide After, Serviced, Prompted, Justified, Describes, Judge, RecordAdmission, SessionInv, FreshIn, DatedIn, Fresh,
      EvaluateTransitionGuards, EvaluateLifecycleTransition, PhaseOf, ReadWatermark;
    var call, db := steps[k].call, After(codec, steps[..k]);
    var session := call.request.sessionId;
    ReachableInv(codec, steps[..k]);
    KnownTables(codec, db);
    AdmissionReachesGuards(codec, db, call);
    AdmittedContextIsDated(codec, steps, preparations, k);
    if Prompted(steps, preparations) { AdmittedContextIsFresh(codec, steps, preparations, k); }
    KnownAt(codec, steps[..k], session);
    DescribedView(codec, session, ViewOf(db, session), before);
    JustifiedByView(before, ViewOf(db, session), call, AppliedBy(db, call));
  }

  /**
   * Every history a serviced run leaves in the store is a valid trace: each transition was allowed by the graph and by
   * the guards. Where callers expect what was read, each context was still true of the session at commit.
   */
  lemma {:induction false} ServicedHistoryIsValid(
    codec: Codec, steps: seq<Step>, preparations: seq<Preparation>, session: string)
    requires Lawful(codec) && Serviced(codec, steps, preparations)
    ensures Valid(TraceOf(codec, steps, session))
    ensures Prompted(steps, preparations) ==> Current(TraceOf(codec, steps, session))
  {
    hide Serviced, Prompted, Valid, Current, Admits, After, Lawful, Justified, Fresh;
    if steps == [] {
      EmptyTraceValid();
    } else {
      var n := |steps| - 1;
      ServicedPrefix(codec, steps, preparations, n);
      ServicedHistoryIsValid(codec, steps[..n], preparations[..n], session);
      var db, step := After(codec, steps[..n]), steps[n];
      var before := TraceOf(codec, steps[..n], session);
      if step.Deliver? && step.call.request.sessionId == session && Admits(codec, db, step.call, step.supply) {
        TraceMatchesStore(codec, steps[..n], preparations[..n], session);
        AdmissionIsJustified(codec, steps, preparations, n, before);
        JustifiedExtend(before, AppliedBy(db, step.call));
        if Prompted(steps, preparations) { CurrentExtend(before, AppliedBy(db, step.call)); }
      } else {
        assert TraceOf(codec, steps, session) == before;
      }
    }
  }

  lemma EmptyTraceValid()
    ensures Valid([]) && Current([])
  {
  }
}

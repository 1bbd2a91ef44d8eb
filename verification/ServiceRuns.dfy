/**
 * Runs in which every transition comes from `transitionSession`: its reads are spread over the run, and any other
 * transaction may commit between them.
 */
module ServiceRuns {
  import opened Options
  import opened JsonValues
  import opened Lifecycle
  import opened SessionTransition
  import opened Rows
  import opened StoreTables
  import opened SessionStore
  import opened StoreAnswers
  import opened StoreRuns
  import opened SessionService

  /** The moments of a run at which one call read, what it read there, and what it observed outside the store. */
  datatype Preparation = Preparation(
    lifecycleAt: nat, keyAt: nat, watermarkAt: nat, preliminaryAt: nat, evidenceAt: nat,
    taken: Snapshots, observed: Observation, prepared: PreparedPlan)

  /** Stands in for evidence that is not read when there is no session. */
  const NO_VIEW := View("", TaskRow(Queued, 0, None), None, [], [], [], None, [], [], [], [])

  ghost predicate IsViewAt(codec: Codec, steps: seq<Step>, at: nat, session: string, v: View)
    requires at <= |steps|
  {
    Known(After(codec, steps[..at]), session) && ViewOf(After(codec, steps[..at]), session) == v
  }

  ghost predicate KeyRecordedAt(codec: Codec, steps: seq<Step>, at: nat, session: string, key: string)
    requires at <= |steps|
  {
    FindDecision(Of(After(codec, steps[..at]).decisions, session), key).Some?
  }

  /** The call applied at step `k` was prepared by the service, from reads taken in this order and no later than `k`. */
  ghost predicate PreparedBy(codec: Codec, steps: seq<Step>, k: nat, call: TransitionCall, p: Preparation)
    requires k <= |steps|
  {
    var session := call.request.sessionId;
    && p.lifecycleAt <= p.keyAt <= p.watermarkAt <= p.preliminaryAt <= p.evidenceAt <= k
    && (p.taken.lifecycle.None? ==> session !in After(codec, steps[..p.lifecycleAt]).sessions)
    && (p.taken.lifecycle.Some? ==>
          && session in After(codec, steps[..p.lifecycleAt]).sessions
          && IsViewAt(codec, steps, p.lifecycleAt, session, p.taken.lifecycle.value)
          && IsViewAt(codec, steps, p.watermarkAt, session, p.taken.watermark)
          && IsViewAt(codec, steps, p.preliminaryAt, session, p.taken.preliminary)
          && IsViewAt(codec, steps, p.evidenceAt, session, p.taken.evidence))
    && call == PrepareCall(
                 codec, call.request, call.key, KeyRecordedAt(codec, steps, p.keyAt, session, call.key), p.taken,
                 p.observed, p.prepared)
  }

  /**
   * The caller expects the very version its context was read at. Only the plan-binding branch of the source checks
   * it.
   */
  predicate ExpectsWhatWasRead(call: TransitionCall, p: Preparation) {
    p.taken.lifecycle.Some? && call.request.expectedVersion == p.taken.lifecycle.value.task.stateVersion
  }

  /** A run whose transitions all come from the service. */
  ghost predicate Serviced(codec: Codec, steps: seq<Step>, preparations: seq<Preparation>) {
    && |preparations| == |steps|
    && forall k {:trigger preparations[k]} :: 0 <= k < |steps| && steps[k].Deliver? ==>
         PreparedBy(codec, steps, k, steps[k].call, preparations[k])
  }

  /** A caller who found the session expects the version it was shown. */
  ghost predicate Prompted(steps: seq<Step>, preparations: seq<Preparation>) {
    && |preparations| == |steps|
    && forall k {:trigger preparations[k]} :: 0 <= k < |steps| && steps[k].Deliver? ==>
         preparations[k].taken.lifecycle.None? || ExpectsWhatWasRead(steps[k].call, preparations[k])
  }

  // ----- preparations over longer runs

  lemma PreparedKeepsRequest(
    codec: Codec, request: TransitionRequest, key: string, known: bool, taken: Snapshots, observed: Observation,
    prepared: PreparedPlan)
    ensures
      var call := PrepareCall(codec, request, key, known, taken, observed, prepared);
      call.request == request && call.key == key
  {
    hide FullContext, PlanlessContext, EvaluateSessionProof, ReadWatermark, NeedsReview, NeedsProof, BindsPlanNow;
  }

  /** Reads stay what they were while the run goes on. */
  lemma PreparedLater(
    codec: Codec, steps: seq<Step>, more: seq<Step>, k: nat, call: TransitionCall, p: Preparation)
    requires k <= |steps| && PreparedBy(codec, steps, k, call, p)
    ensures PreparedBy(codec, steps + more, k, call, p)
    ensures PreparedBy(codec, steps + more, |steps + more|, call, p)
  {
    hide After, PrepareCall, ViewOf;
    var longer := steps + more;
    assert longer[..p.lifecycleAt] == steps[..p.lifecycleAt] && longer[..p.keyAt] == steps[..p.keyAt];
    assert longer[..p.watermarkAt] == steps[..p.watermarkAt] && longer[..p.preliminaryAt] == steps[..p.preliminaryAt];
    assert longer[..p.evidenceAt] == steps[..p.evidenceAt];
  }

  // ----- when preparation is atomic

  /** What the preparation of a transition reads of a session, apart from its lifecycle row. */
  predicate SameEvidence(v: View, w: View) {
    && v.transitions == w.transitions && v.plan == w.plan
    && v.gates == w.gates && v.signedGates == w.signedGates && v.reviews == w.reviews
  }

  lemma ProofDependsOnEvidence(v: View, w: View, currentHead: Option<Text>, observed: Observation)
    requires SameEvidence(v, w)
    ensures EvaluateSessionProof(v, currentHead, observed) == EvaluateSessionProof(w, currentHead, observed)
  {
  }

  lemma SamePreparation(
    codec: Codec, request: TransitionRequest, key: string, taken: Snapshots, v: View, observed: Observation,
    prepared: PreparedPlan)
    requires taken.lifecycle.Some?
    requires taken.lifecycle.value.task == v.task && taken.lifecycle.value.transitions == v.transitions
    requires PhaseOf(taken.lifecycle.value) == PhaseOf(v)
    requires NeedsReview(request, v) || NeedsProof(request, v) ==>
               && ReadWatermark(taken.watermark) == ReadWatermark(v)
               && SameEvidence(taken.preliminary, v) && SameEvidence(taken.evidence, v)
    ensures PrepareCall(codec, request, key, false, taken, observed, prepared)
            == PrepareCall(codec, request, key, false, Snapshots(Some(v), v, v, v), observed, prepared)
  {
    hide EvaluateSessionProof, PhaseOf, ReadWatermark, SameEvidence, BuildProofGuardContext,
      RequiresProofGuardContext, TransitionGuardRequirement;
    if NeedsReview(request, v) || NeedsProof(request, v) {
      ProofDependsOnEvidence(taken.preliminary, v, None, observed);
      ProofDependsOnEvidence(taken.evidence, v, Some(observed.repository.headSha), observed);
    }
  }

  lemma KeyStaysRecorded(v: View, w: View, key: string)
    requires v.decisions <= w.decisions && FindDecision(v.decisions, key).Some?
    ensures FindDecision(w.decisions, key).Some?
  {
    assert w.decisions == v.decisions + w.decisions[|v.decisions|..];
    FindDecisionAppend(v.decisions, w.decisions[|v.decisions|..], key);
  }

  lemma UnrecordedKeyWasUnrecorded(codec: Codec, steps: seq<Step>, at: nat, k: nat, session: string, key: string)
    requires Lawful(codec) && at <= k <= |steps| && session in After(codec, steps[..at]).sessions
    requires !KeyRecordedAt(codec, steps, k, session, key)
    ensures !KeyRecordedAt(codec, steps, at, session, key)
  {
    hide After, ViewOf, FindDecision;
    RunGrows(codec, steps, at, k, session);
    var v, w := ViewOf(After(codec, steps[..at]), session), ViewOf(After(codec, steps[..k]), session);
    ReadsDecisions(After(codec, steps[..at]), session);
    ReadsDecisions(After(codec, steps[..k]), session);
    if FindDecision(v.decisions, key).Some? { KeyStaysRecorded(v, w, key); }
  }

  lemma ReadsDecisions(db: Tables, session: string)
    requires Known(db, session)
    ensures ViewOf(db, session).decisions == Of(db.decisions, session)
  {
  }

  /** Between the watermark read and the guards, an equal watermark and an equal history pin all the evidence. */
  lemma EvidenceIsCurrent(
    codec: Codec, steps: seq<Step>, k: nat, call: TransitionCall, lifecycleAt: nat, watermarkAt: nat, evidenceAt: nat,
    u: View, m: View, e: View)
    requires Lawful(codec) && lifecycleAt <= watermarkAt <= evidenceAt <= k <= |steps|
    requires call.request.sessionId in After(codec, steps[..lifecycleAt]).sessions
    requires IsViewAt(codec, steps, lifecycleAt, call.request.sessionId, u)
    requires IsViewAt(codec, steps, watermarkAt, call.request.sessionId, m)
    requires IsViewAt(codec, steps, evidenceAt, call.request.sessionId, e)
    requires call.request.expectedVersion == u.task.stateVersion && call.watermark == Some(ReadWatermark(m))
    requires ReachesGuards(codec, After(codec, steps[..k]), call)
    ensures SameEvidence(e, ViewOf(After(codec, steps[..k]), call.request.sessionId))
    ensures ReadWatermark(m) == ReadWatermark(ViewOf(After(codec, steps[..k]), call.request.sessionId))
  {
    hide ViewOf, After, ReadWatermark, PhaseOf, EvaluateLifecycleTransition;
    ContextIsCurrent(codec, steps, call, lifecycleAt, watermarkAt, evidenceAt, k);
  }

  /** The call as the service would prepare it in one instant, from the very rows the transaction sees. */
  function Instant(codec: Codec, v: View, call: TransitionCall, p: Preparation): TransitionCall {
    PrepareCall(codec, call.request, call.key, false, Snapshots(Some(v), v, v, v), p.observed, p.prepared)
  }

  /** The service found the session, and the history it read is still the session's history. */
  predicate ReadCurrentHistory(v: View, p: Preparation) {
    p.taken.lifecycle.Some? && p.taken.lifecycle.value.transitions == v.transitions
  }

  /**
   * For every call the service prepares, whatever version it expects and whichever branch prepared it: when it reaches
   * the guards, the history it was prepared from is the history inside the transaction if and only if the service found
   * the session and the caller expects the version found. Then spreading the reads over the run, with other writers in
   * between, changed nothing at all: the call is the one prepared in one instant.
   */
  lemma PreparationIsExact(codec: Codec, steps: seq<Step>, k: nat, call: TransitionCall, p: Preparation)
    requires Lawful(codec) && k <= |steps| && PreparedBy(codec, steps, k, call, p)
    requires ReachesGuards(codec, After(codec, steps[..k]), call)
    ensures
      var v := ViewOf(After(codec, steps[..k]), call.request.sessionId);
      && (ReadCurrentHistory(v, p) <==> ExpectsWhatWasRead(call, p))
      && (ReadCurrentHistory(v, p) ==> call == Instant(codec, v, call, p))
  {
    hide After, ViewOf, Instant, PhaseOf, EvaluateLifecycleTransition, ReadWatermark, PrepareCall, KeyRecordedAt;
    if p.taken.lifecycle.Some? {
      HistoryIsCurrent(codec, steps, call, p.lifecycleAt, k);
      if ExpectsWhatWasRead(call, p) { PreparedAtOnce(codec, steps, k, call, p); }
    }
  }

  lemma PreparedAtOnce(codec: Codec, steps: seq<Step>, k: nat, call: TransitionCall, p: Preparation)
    requires Lawful(codec) && k <= |steps| && PreparedBy(codec, steps, k, call, p) && ExpectsWhatWasRead(call, p)
    requires ReachesGuards(codec, After(codec, steps[..k]), call)
    ensures call == Instant(codec, ViewOf(After(codec, steps[..k]), call.request.sessionId), call, p)
  {
    hide After, ViewOf, ReadWatermark, PhaseOf, SameEvidence, FullContext, PlanlessContext, RequiresProofGuardContext,
      TransitionGuardRequirement, EvaluateLifecycleTransition, EvaluateSessionProof, Lawful;
    var session := call.request.sessionId;
    var u := p.taken.lifecycle.value;
    var v := ViewOf(After(codec, steps[..k]), session);
    RunGrows(codec, steps, p.lifecycleAt, p.keyAt, session);
    UnrecordedKeyWasUnrecorded(codec, steps, p.keyAt, k, session, call.key);
    HistoryIsCurrent(codec, steps, call, p.lifecycleAt, k);
    if !BindsPlanNow(call.request, u) && (NeedsReview(call.request, u) || NeedsProof(call.request, u)) {
      EvidenceIsCurrent(
        codec, steps, k, call, p.lifecycleAt, p.watermarkAt, p.preliminaryAt, u, p.taken.watermark,
        p.taken.preliminary);
      EvidenceIsCurrent(
        codec, steps, k, call, p.lifecycleAt, p.watermarkAt, p.evidenceAt, u, p.taken.watermark, p.taken.evidence);
    }
    BindingNeedsNoEvidence(call.request, v);
    SamePreparation(codec, call.request, call.key, p.taken, v, p.observed, p.prepared);
  }

  lemma BindingNeedsNoEvidence(request: TransitionRequest, v: View)
    ensures BindsPlanNow(request, v) ==> !NeedsReview(request, v) && !NeedsProof(request, v)
  {
  }

  // ----- a call that expects a version the service did not read

  /** Only the plan-binding branch puts a plan into a call, and the guards see the very plan the call binds. */
  lemma GuardsSeeThePlan(
    codec: Codec, request: TransitionRequest, key: string, known: bool, taken: Snapshots, observed: Observation,
    prepared: PreparedPlan)
    ensures
      var call := PrepareCall(codec, request, key, known, taken, observed, prepared);
      && (call.guards.UnderContext? ==> call.guards.context.boundPlan == call.boundPlan)
      && (call.boundPlan.Some? || call.guards.PreparedRejection? ==>
            !known && taken.lifecycle.Some? && BindsPlanNow(request, taken.lifecycle.value))
  {
    hide EvaluateSessionProof, ImplementationBasisOf, RepairBasis, PhaseOf, ReadWatermark, HistoryOf, CommittedSince,
      NeedsReview, NeedsProof;
  }

  /** Where a plan is to be bound, the call is the instant one exactly when the caller expects what was read. */
  lemma PlanRequestIsExact(codec: Codec, steps: seq<Step>, k: nat, call: TransitionCall, p: Preparation)
    requires Lawful(codec) && k <= |steps| && PreparedBy(codec, steps, k, call, p)
    requires ReachesGuards(codec, After(codec, steps[..k]), call)
    requires BindsPlanNow(call.request, ViewOf(After(codec, steps[..k]), call.request.sessionId))
    ensures
      var v := ViewOf(After(codec, steps[..k]), call.request.sessionId);
      && (call == Instant(codec, v, call, p) <==> ExpectsWhatWasRead(call, p))
      && (call.boundPlan.Some? <==> p.prepared.PlanReady? && ExpectsWhatWasRead(call, p))
  {
    hide After, ViewOf, PhaseOf, EvaluateLifecycleTransition, ReadWatermark, KeyRecordedAt, FullContext,
      PlanlessContext, NeedsReview, NeedsProof, EvaluateSessionProof;
    PreparationIsExact(codec, steps, k, call, p);
    GuardsSeeThePlan(
      codec, call.request, call.key, KeyRecordedAt(codec, steps, p.keyAt, call.request.sessionId, call.key), p.taken,
      p.observed, p.prepared);
  }

  /** Where the target needs no guard context, reading late or early makes no difference to the verdict. */
  lemma UnguardedVerdictIsExact(codec: Codec, steps: seq<Step>, k: nat, call: TransitionCall, p: Preparation)
    requires Lawful(codec) && k <= |steps| && PreparedBy(codec, steps, k, call, p)
    requires ReachesGuards(codec, After(codec, steps[..k]), call)
    requires
      var v := ViewOf(After(codec, steps[..k]), call.request.sessionId);
      TransitionGuardRequirement(v.task.status, call.request.target) == NoGuard
    ensures
      var v := ViewOf(After(codec, steps[..k]), call.request.sessionId);
      JudgeFresh(v, call) == JudgeFresh(v, Instant(codec, v, call, p))
  {
    hide After, ViewOf, PhaseOf, EvaluateLifecycleTransition, ReadWatermark, KeyRecordedAt;
    PreparationIsExact(codec, steps, k, call, p);
    var v := ViewOf(After(codec, steps[..k]), call.request.sessionId);
    var instant := Instant(codec, v, call, p);
    GuardsSeeThePlan(
      codec, call.request, call.key, KeyRecordedAt(codec, steps, p.keyAt, call.request.sessionId, call.key), p.taken,
      p.observed, p.prepared);
    InstantIsBare(codec, v, call, p);
    if !ExpectsWhatWasRead(call, p) { UnguardedIgnoresContext(v, call, instant); }
  }

  lemma InstantIsBare(codec: Codec, v: View, call: TransitionCall, p: Preparation)
    requires TransitionGuardRequirement(v.task.status, call.request.target) == NoGuard
    ensures Instant(codec, v, call, p)
            == TransitionCall(call.request, call.key, None, None, UnderContext(EMPTY_CONTEXT))
  {
  }

  lemma UnguardedIgnoresContext(v: View, call: TransitionCall, other: TransitionCall)
    requires TransitionGuardRequirement(v.task.status, call.request.target) == NoGuard
    requires call.request == other.request && call.boundPlan.None? && other.boundPlan.None?
    requires call.guards.UnderContext? && other.guards.UnderContext?
    requires call.watermark.Some? ==> call.watermark.value == ReadWatermark(v)
    requires other.watermark.None?
    ensures JudgeFresh(v, call) == JudgeFresh(v, other)
  {
    hide PhaseOf, EvaluateLifecycleTransition, ReadWatermark, ReadPrePrReviewEvidence, HasBlockEvidence,
      HasRecoveryEvidence, Field;
  }
}

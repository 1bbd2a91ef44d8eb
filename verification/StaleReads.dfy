/**
 * What goes wrong when a request expects a version other than the one its context was read at. Only the branch of
 * `transitionSession` that binds a plan compares the two, so such a request can reach the guards.
 */
module StaleReads {
  import opened Options
  import opened Lifecycle
  import opened SessionTransition
  import opened Rows
  import opened StoreTables
  import opened SessionStore
  import opened StoreInvariant
  import opened StoreSteps
  import opened StoreRuns
  import opened SessionService
  import opened ServiceRuns
  import opened Courses

  const SESSION := "session"

  /** A plan request that already expects version 1. */
  const PLAN := Ask(SESSION, ProofReady, 1)

  function BareCall(key: string): TransitionCall {
    TransitionCall(PLAN, key, None, None, UnderContext(EMPTY_CONTEXT))
  }

  lemma FramedVerdicts(codec: Codec, v: View, call: TransitionCall, p: Preparation)
    requires v.task == TaskRow(Framed, 1, None) && p.prepared.PlanReady?
    requires call == BareCall(call.key)
    ensures JudgeFresh(v, call).Reject? && JudgeFresh(v, Instant(codec, v, call, p)).Admit?
  {
    hide PhaseOf, ReadWatermark, EvaluateTransitionGuards;
    EmptyInputGuards(Framed, ProofReady, None, EMPTY_CONTEXT);
    EmptyInputGuards(Framed, ProofReady, None, EMPTY_CONTEXT.(boundPlan := Some(p.prepared.plan)));
  }

  lemma BareIsPrepared(codec: Codec, key: string, known: bool, taken: Snapshots, p: Preparation)
    requires taken.lifecycle.None? || taken.lifecycle.value.task == TaskRow(Queued, 0, None)
    ensures PrepareCall(codec, PLAN, key, known, taken, p.observed, p.prepared) == BareCall(key)
  {
  }

  lemma BareReachesGuards(codec: Codec, db: Tables, key: string)
    requires Known(db, SESSION) && ViewOf(db, SESSION).task == TaskRow(Framed, 1, None)
    requires FindDecision(Of(db.decisions, SESSION), key).None?
    ensures ReachesGuards(codec, db, BareCall(key))
  {
    hide PhaseOf, ReadWatermark, FindDecision;
  }

  /**
   * The two ways to read too early, on one run: the plan request already expects version 1, but the service reads the
   * session while it is queued, or before it exists. Once another writer has framed it, the request reaches the guards
   * without a plan and is rejected, although the same request prepared from the rows the transaction sees would have
   * bound one. Both preparations fail the condition of `PreparationIsExact`.
   */
  lemma StaleReadIsMisprepared(codec: Codec, plan: BoundPlan, observed: Observation)
    returns (steps: seq<Step>, call: TransitionCall, stale: Preparation, unread: Preparation)
    requires Deployment(codec, 3)
    ensures PreparedBy(codec, steps, |steps|, call, stale) && stale.taken.lifecycle.Some?
    ensures PreparedBy(codec, steps, |steps|, call, unread) && unread.taken.lifecycle.None?
    ensures !ExpectsWhatWasRead(call, stale) && !ExpectsWhatWasRead(call, unread)
    ensures stale.prepared == unread.prepared == PlanReady(plan)
    ensures ReachesGuards(codec, After(codec, steps), call)
    ensures
      var v := ViewOf(After(codec, steps), call.request.sessionId);
      && JudgeFresh(v, call).Reject?
      && JudgeFresh(v, Instant(codec, v, call, stale)).Admit?
      && JudgeFresh(v, Instant(codec, v, call, unread)).Admit?
  {
    hide After, ViewOf, Deployment, Ample, Lawful, PhaseOf, ReadWatermark, JudgeFresh, Instant, PrepareCall, Stands,
      Went, StoreInv, SessionInv, KeyRecordedAt;
    DeploymentIsLawful(codec, 3);
    var b, u := Begin(codec, "task", SESSION);
    DeploymentIsAmple(codec, 3, u, 2);
    var c, v := Frame(codec, b, SESSION, u);
    FramedByNow(codec, u, v);
    var key := FreshKey(v);
    steps, call := c.steps, BareCall(key);
    stale := Reading(|b.steps|, u, |b.steps|, u, observed, PlanReady(plan));
    unread := Preparation(0, 0, 0, 0, 0, Snapshots(None, u, u, u), observed, PlanReady(plan));
    StandsNow(codec, b, SESSION, u);
    ReadStays(codec, b, c, SESSION, |b.steps|, u);
    ReadingPrepares(codec, c, SESSION, v, PLAN, key, stale);
    BareIsPrepared(codec, key, false, stale.taken, stale);
    NothingBefore(codec, b.steps[0]);
    assert steps[..0] == [];
    BareIsPrepared(codec, key, KeyRecordedAt(codec, steps, 0, SESSION, key), unread.taken, unread);
    StandsIsReachable(codec, c, SESSION, v);
    ReadsDecisions(After(codec, steps), SESSION);
    BareReachesGuards(codec, After(codec, steps), key);
    FramedVerdicts(codec, v, call, stale);
    FramedVerdicts(codec, v, call, unread);
  }

  lemma FramedByNow(codec: Codec, u: View, v: View)
    requires Went(codec, u, Framed, EMPTY_INPUT, v) && u.task == TaskRow(Queued, 0, None)
    ensures v.task == TaskRow(Framed, 1, None)
  {
    hide HistoryOf, PhaseOf, RepairCount;
  }
}

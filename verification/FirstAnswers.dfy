/**
 * What a delivery under a new key is told, in order: a version that moved, a transition not open, evidence that
 * changed, a warrant that is missing, and otherwise the transition it made.
 */
module FirstAnswers {
  import opened Options
  import opened Lifecycle
  import opened StoreTables
  import opened SessionStore
  import opened StoreInvariant
  import opened StoreRuns
  import opened ServiceRuns
  import opened StoreAnswers
  import opened Rows
  import opened Warrants
  import opened HistoryAuthority
  import opened JsonValues

  /** The transitions of the graph that stay open to the session, given whether it has been reviewed. */
  ghost predicate Open(v: View, target: TaskStatus) {
    var source, reviewed := v.task.status, HasBeenReviewed(v);
    if source == Blocked then v.task.blockedFrom == Some(target)
    else if target == Blocked then source != Completed
    else (source, target) in if reviewed then OPEN_REVIEWED else OPEN_UNREVIEWED
  }

  const OPEN_REVIEWED := {
    (Queued, Framed), (Framed, ProofReady), (ProofReady, Implementing), (Implementing, Verifying),
    (Verifying, Reviewing), (Verifying, Repairing), (Repairing, Verifying), (Reviewing, Repairing),
    (Reviewing, ReadyForHuman), (ReadyForHuman, Repairing), (ReadyForHuman, Completed)}

  const OPEN_UNREVIEWED := {
    (Queued, Framed), (Framed, ProofReady), (ProofReady, Implementing), (Implementing, Verifying),
    (Verifying, Implementing), (Verifying, PrePrReviewing), (Verifying, Repairing), (PrePrReviewing, Implementing),
    (PrePrReviewing, Reviewing), (Repairing, Verifying), (Reviewing, Repairing), (Reviewing, ReadyForHuman),
    (ReadyForHuman, Repairing), (ReadyForHuman, Completed)}

  lemma OpenIsExact(codec: Codec, session: string, v: View, target: TaskStatus)
    requires SessionInv(codec, session, v)
    ensures
      EvaluateLifecycleTransition(v.task.status, target, v.task.blockedFrom, Some(PhaseOf(v))).TransitionAllowed?
      <==> Open(v, target)
  {
    hide SessionInv, PhaseOf, HasBeenReviewed;
    PhaseIsExact(codec, session, v);
    PriorIsOrdinary(codec, session, v);
    if v.task.status != Blocked && target != Blocked {
      OpenGraph(v.task.status, target, v.task.blockedFrom, PhaseOf(v));
    }
  }

  /** The graph between two states that are not blocks, in each phase. */
  lemma OpenGraph(source: TaskStatus, target: TaskStatus, blockedFrom: Option<TaskStatus>, phase: Phase)
    requires source != Blocked && target != Blocked
    ensures EvaluateLifecycleTransition(source, target, blockedFrom, Some(phase)).TransitionAllowed?
            <==> (source, target) in if phase == PostPr then OPEN_REVIEWED else OPEN_UNREVIEWED
  {
  }

  /** A session is blocked from somewhere it can go back to. */
  lemma PriorIsOrdinary(codec: Codec, session: string, v: View)
    requires SessionInv(codec, session, v)
    ensures v.task.status == Blocked ==>
              v.task.blockedFrom.Some? && v.task.blockedFrom.value !in {Blocked, Completed}
  {
    hide LedgerInv, Conserved, EvidenceInv, AnswerInv, RequestBound;
    if v.transitions != [] { assert RowInPlace(codec, session, v, |v.transitions| - 1); }
  }

  /** The call as the service prepares it from the rows as they stand. */
  ghost predicate IsPreparedNow(codec: Codec, v: View, call: TransitionCall, p: Preparation) {
    call == Instant(codec, v, call, p)
  }

  /** The store answered so, or a write was rejected and nothing has changed. */
  ghost predicate Answers(db: Tables, step: (Tables, Outcome), result: TransitionResult) {
    step.1 == Returned(result) || step == (db, Threw(WriteRejected))
  }

  /** The verdict on a call prepared in the same instant. */
  lemma VerdictIsExact(codec: Codec, session: string, v: View, call: TransitionCall, p: Preparation)
    requires SessionInv(codec, session, v) && IsPreparedNow(codec, v, call, p)
    ensures
      var target, verdict := call.request.target, JudgeFresh(v, call);
      if call.request.expectedVersion != v.task.stateVersion then
        verdict == Reject(Refusal(StateVersionConflict(v.task.stateVersion)))
      else if !Open(v, target) then
        && verdict.Reject? && verdict.result.Refusal? && verdict.result.error.TransitionNotAllowed?
        && (verdict.result.error.code.CompletedTerminal? <==> v.task.status == Completed)
      else if !Warranted(codec, v, target, call.request.input, p.observed, p.prepared) then
        verdict.Reject? && verdict.result.Refusal? && verdict.result.error.TransitionGuardFailed?
      else verdict.Admit?
  {
    hide SessionInv, Instant, Open, Warranted, PhaseOf, RunGuards, ReadWatermark;
    OpenIsExact(codec, session, v, call.request.target);
    if call.request.expectedVersion == v.task.stateVersion && Open(v, call.request.target) {
      InstantIsWarranted(codec, session, v, call, p);
      InstantCases(codec, v, call, p);
    }
  }

  /**
   * In every run, a call prepared from the rows as they stand, under a key that has no answer yet, is told: the current
   * version, if it expected another; that the graph has no such transition; that the warrant for it is missing; and in
   * every other case that it made the transition, which is then the last of the history.
   */
  lemma FirstAnswerIsExact(codec: Codec, steps: seq<Step>, call: TransitionCall, supply: Supply, p: Preparation)
    requires Lawful(codec) && call.request.sessionId in After(codec, steps).sessions
    requires forall d :: d in Of(After(codec, steps).decisions, call.request.sessionId) ==> d.key != call.key
    requires Known(After(codec, steps), call.request.sessionId)
    requires IsPreparedNow(codec, ViewOf(After(codec, steps), call.request.sessionId), call, p)
    ensures
      var db := After(codec, steps);
      var v, target := ViewOf(db, call.request.sessionId), call.request.target;
      var step := ApplyTransition(codec, db, call, supply);
      if call.request.expectedVersion != v.task.stateVersion then
        Answers(db, step, Refusal(StateVersionConflict(v.task.stateVersion)))
      else if !Open(v, target) then
        exists code :: Answers(db, step, Refusal(TransitionNotAllowed(code)))
                       && (code.CompletedTerminal? <==> v.task.status == Completed)
      else if !Warranted(codec, v, target, call.request.input, p.observed, p.prepared) then
        exists failure :: Answers(db, step, Refusal(TransitionGuardFailed(failure)))
      else
        Answers(db, step, AppliedResult(v, call, supply))
  {
    hide After, ViewOf, JudgeFresh, Open, Warranted, SessionInv, AuthorityHolds, RowCorrupt, RecordAdmission,
      RecordRejection, Instant, Of, AppliedResult;
    var db, session := After(codec, steps), call.request.sessionId;
    KnownAt(codec, steps, session);
    var v := ViewOf(db, session);
    AgreesOnSession(codec, session, v);
    FindDecisionAppend(Of(db.decisions, session), [], call.key);
    VerdictIsExact(codec, session, v, call, p);
  }

  /** Whoever read other evidence than the rows now hold is turned away, and nothing is recorded. */
  lemma ChangedEvidenceIsThrown(codec: Codec, steps: seq<Step>, call: TransitionCall, supply: Supply)
    requires Lawful(codec) && call.request.sessionId in After(codec, steps).sessions
    requires forall d :: d in Of(After(codec, steps).decisions, call.request.sessionId) ==> d.key != call.key
    requires Known(After(codec, steps), call.request.sessionId)
    requires
      var v := ViewOf(After(codec, steps), call.request.sessionId);
      && call.request.expectedVersion == v.task.stateVersion && Open(v, call.request.target)
      && call.watermark.Some? && call.watermark.value != ReadWatermark(v)
    ensures ApplyTransition(codec, After(codec, steps), call, supply) == (After(codec, steps), Threw(EvidenceChanged))
  {
    hide After, ViewOf, Open, SessionInv, AuthorityHolds, RowCorrupt, RecordAdmission, RecordRejection, Of,
      ReadWatermark, RunGuards, EvaluateLifecycleTransition, PhaseOf;
    var db, session := After(codec, steps), call.request.sessionId;
    KnownAt(codec, steps, session);
    AgreesOnSession(codec, session, ViewOf(db, session));
    FindDecisionAppend(Of(db.decisions, session), [], call.key);
    OpenIsExact(codec, session, ViewOf(db, session), call.request.target);
  }

  // ----- a store that was tampered with

  /** Blocked exactly with somewhere to go back to, ended exactly when completed, and at a version that counts. */
  predicate RowStands(v: View) {
    && 0 <= v.task.stateVersion && IsSafeInteger(v.task.stateVersion)
    && (v.task.status == Blocked <==> v.task.blockedFrom.Some?)
    && (v.task.blockedFrom.Some? ==> v.task.blockedFrom.value !in {Blocked, Completed})
    && (v.task.status == Completed <==> v.endedAt.Some?)
  }

  ghost predicate IsSound(codec: Codec, session: string, v: View) {
    Sound(codec, session, v, OrderBy(v.transitions, ToVersion), OrderBy(v.audit, SequenceOf))
  }

  /**
   * Of any tables whatever, reachable or not: a delivery for a session that is not there, whose row does not stand,
   * or whose history is not sound is answered so and writes nothing; and an answer on record is not given out from an
   * unsound history.
   */
  lemma DamageIsReported(codec: Codec, db: Tables, call: TransitionCall, supply: Supply)
    ensures
      var session, step := call.request.sessionId, ApplyTransition(codec, db, call, supply);
      var unanswered := forall d :: d in Of(db.decisions, session) ==> d.key != call.key;
      if session !in db.sessions || db.sessions[session].taskId !in db.tasks then
        step == (db, if unanswered then Returned(Refusal(SessionNotFound)) else Threw(HistoryCorrupted))
      else
        var v := ViewOf(db, session);
        if unanswered && !RowStands(v) then step == (db, Returned(Refusal(StateCorrupted)))
        else Distinct(OrderBy(v.transitions, ToVersion)) && !IsSound(codec, session, v) ==>
               step == (db, Threw(HistoryCorrupted))
  {
    hide ViewOf, AuthorityHolds, JudgeFresh, JudgeRedelivery, RecordAdmission, RecordRejection, RecordConflictRow, Of,
      IsSound, Distinct, OrderBy;
    var session := call.request.sessionId;
    FindDecisionAppend(Of(db.decisions, session), [], call.key);
    if Known(db, session) {
      StandingRow(ViewOf(db, session));
      if Distinct(OrderBy(ViewOf(db, session).transitions, ToVersion)) {
        SoundIsAccepted(codec, session, ViewOf(db, session));
      }
    }
  }

  lemma StandingRow(v: View)
    ensures RowStands(v) <==> !RowCorrupt(v)
  {
  }

  lemma SoundIsAccepted(codec: Codec, session: string, v: View)
    requires Distinct(OrderBy(v.transitions, ToVersion))
    ensures IsSound(codec, session, v) <==> AuthorityHolds(codec, session, v)
  {
    hide AuthorityHolds, Sound, OrderBy, Distinct;
    AcceptedIsExact(codec, session, v);
  }

  /** Nor is evidence appended to an unsound history. */
  lemma DamageTakesNoEvidence(
    codec: Codec, db: Tables, session: string, planSha256: string, stateVersion: int, states: set<TaskStatus>)
    requires Known(db, session) && Distinct(OrderBy(ViewOf(db, session).transitions, ToVersion))
    requires !IsSound(codec, session, ViewOf(db, session))
    ensures AppendContext(codec, db, session, planSha256, stateVersion, states).Some?
  {
    hide AuthorityHolds, OrderBy, Distinct, IsSound;
    SoundIsAccepted(codec, session, ViewOf(db, session));
  }
}

/**
 * The store object: each method is one `BEGIN IMMEDIATE` transaction of src/adapters/fs/sqlite-store.ts, run statement
 * by statement on a working copy that replaces the committed tables only at the end.
 */
module Store {
  import opened Options
  import opened Lifecycle
  import opened SessionTransition
  import opened ProofEvidence
  import opened AuditLedger
  import opened Rows
  import opened StoreTables
  import opened SessionStore
  import opened StoreSteps
  import opened StoreRuns

  class SqliteStore {
    const codec: Codec
    var tables: Tables

    /** Every session's rows satisfy the writer's invariant. */
    ghost predicate Valid()
      reads this
    {
      Lawful(codec) && StoreInv(codec, tables)
    }

    constructor (codec: Codec)
      ensures this.codec == codec && tables == EMPTY_TABLES
      ensures Lawful(codec) ==> Valid()
    {
      this.codec := codec;
      tables := EMPTY_TABLES;
      new;
      EmptyStoreInv(codec);
    }

    method InsertTaskSession(taskId: string, session: string, eventId: string, now: int) returns (committed: bool)
      modifies this`tables
      ensures committed <==> StartSession(codec, old(tables), taskId, session, eventId, now).Some?
      ensures tables == Next(codec, old(tables), Start(taskId, session, eventId, now))
      ensures old(Valid()) ==> Valid()
    {
      ghost var before := tables;
      var db := tables;
      if taskId in db.tasks || session in db.sessions { return false; }
      db := db.(tasks := db.tasks[taskId := TaskRow(Queued, 0, None)]);
      db := db.(sessions := db.sessions[session := SessionRow(taskId, None)]);
      var audited := InsertAudit(codec, db, session, eventId, now, 0, SessionStarted(taskId, Queued));
      if audited.None? { return false; }
      tables := WriteActiveProjection(audited.value);
      Kept(before, Start(taskId, session, eventId, now));
      return true;
    }

    /** The store after a step from a valid store is valid. */
    lemma Kept(before: Tables, step: Step)
      requires tables == Next(codec, before, step)
      ensures Lawful(codec) && StoreInv(codec, before) ==> Valid()
    {
      hide StoreInv, Next;
      if Lawful(codec) && StoreInv(codec, before) { NextKeeps(codec, before, step); }
    }

    /** `persistRejectedTransition`, inside the open transaction. */
    method PersistRejection(db: Tables, call: TransitionCall, result: TransitionResult, supply: Supply)
      returns (after: Option<Tables>)
      requires Known(db, call.request.sessionId)
      ensures after == RecordRejection(codec, db, call, result, supply)
    {
      var session := call.request.sessionId;
      var v := ViewOf(db, session);
      var written := db.(decisions := db.decisions + [Row(session, RejectionRow(codec, call, result))]);
      after := InsertAudit(
        codec, written, session, supply.decisionEventId, supply.now, v.task.stateVersion,
        RejectedDecision(codec, v, call));
    }

    /** The writes of an admitted transition, one statement at a time. */
    method PersistAdmission(committed: Tables, call: TransitionCall, supply: Supply) returns (after: Option<Tables>)
      requires Known(committed, call.request.sessionId)
      ensures after == RecordAdmission(codec, committed, call, supply)
    {
      hide InsertAudit, OpenSessions, SoleSession;
      var session := call.request.sessionId;
      var v := ViewOf(committed, session);
      var db := committed;
      if call.boundPlan.Some? {
        if session in db.plans { return None; }
        db := db.(plans := db.plans[session := call.boundPlan.value]);
      }
      db := db.(tasks := db.tasks[v.taskId := AppliedTask(v, call)]);
      if call.request.target == Completed {
        if v.endedAt.Some? { return None; }
        db := db.(sessions := db.sessions[session := db.sessions[session].(endedAt := Some(supply.now))]);
        db := WriteActiveProjection(db);
      }
      var row := AppliedRow(codec, v, call, supply);
      if TransitionCollides(db, row) { return None; }
      db := db.(transitions := db.transitions + [Row(session, row)]);
      db := db.(decisions := db.decisions + [Row(session, AppliedDecision(codec, v, call, supply))]);
      assert db == AdmittedRows(codec, committed, call, supply);
      var decided := InsertAudit(
        codec, db, session, supply.decisionEventId, supply.now, v.task.stateVersion,
        GuardDecisionMade(call.key, RequestSha256(codec, call), v.task.status, call.request.target, true));
      if decided.None? { return None; }
      after := InsertAudit(
        codec, decided.value, session, supply.appliedEventId, supply.now, v.task.stateVersion + 1,
        AppliedEvent(codec, v, call, supply));
    }

    /** Another request already owns the key: answer it again, or record the conflict once. */
    method Redeliver(call: TransitionCall, existing: Decision, supply: Supply) returns (outcome: Outcome)
      requires FindDecision(Of(tables.decisions, call.request.sessionId), call.key) == Some(existing)
      modifies this`tables
      ensures (tables, outcome) == ApplyTransition(codec, old(tables), call, supply)
    {
      hide AuthorityHolds, InsertAudit, JudgeFresh;
      var session := call.request.sessionId;
      if !Known(tables, session) { return Threw(HistoryCorrupted); }
      var v := ViewOf(tables, session);
      var authority := AssertHistoryAuthority(codec, session, v);
      if authority.None? { return Threw(HistoryCorrupted); }
      var sha256, json := RequestSha256(codec, call), RequestJson(codec, call);
      if existing.requestSha256 == sha256 && existing.requestJson == json { return Returned(existing.result); }
      var prior := FindConflict(v.conflicts, call.key, sha256, json);
      if prior.Some? { return Returned(prior.value.result); }
      var conflict := Refusal(IdempotencyConflict(existing.requestSha256));
      var db := tables.(conflicts := tables.conflicts + [Row(session, ConflictRow(codec, call, conflict))]);
      var audited := InsertAudit(
        codec, db, session, supply.decisionEventId, supply.now, v.task.stateVersion, RejectedDecision(codec, v, call));
      if audited.None? { return Threw(WriteRejected); }
      tables := audited.value;
      return Returned(conflict);
    }

    /** The checks of a first delivery, in order: `Some` is the refusal or the error, `None` lets it through. */
    method CheckFresh(v: View, call: TransitionCall, phase: Phase) returns (stopped: Option<Verdict>)
      requires phase == PhaseOf(v)
      ensures JudgeFresh(v, call) == stopped.GetOr(Admit)
      ensures stopped.Some? ==> stopped.value.Reject? || stopped.value.Throws?
    {
      var current := v.task;
      if call.request.expectedVersion != current.stateVersion {
        return Some(Reject(Refusal(StateVersionConflict(current.stateVersion))));
      }
      var structural := EvaluateLifecycleTransition(
        current.status, call.request.target, current.blockedFrom, Some(phase));
      if structural != TransitionAllowed { return Some(Reject(Refusal(TransitionNotAllowed(structural)))); }
      if call.watermark.Some? && ReadWatermark(v) != call.watermark.value { return Some(Throws(EvidenceChanged)); }
      var guards := RunGuards(
        call.guards, current.status, call.request.target, call.request.input, current.blockedFrom);
      if guards.GuardsDenied? { return Some(Reject(Refusal(TransitionGuardFailed(guards.failure)))); }
      if call.boundPlan.Some? && (current.status != Framed || call.request.target != ProofReady) {
        return Some(Throws(PlanOutsideFramed));
      }
      return None;
    }

    /** `applySessionTransition` */
    method ApplySessionTransition(call: TransitionCall, supply: Supply) returns (outcome: Outcome)
      modifies this`tables
      ensures (tables, outcome) == ApplyTransition(codec, old(tables), call, supply)
      ensures old(Valid()) ==> Valid()
      ensures outcome.Threw? ==> tables == old(tables)
    {
      hide AuthorityHolds, RecordRejection, RecordAdmission, RecordConflictRow, JudgeFresh, JudgeRedelivery, StoreInv,
        RowCorrupt, ViewOf;
      ghost var before := tables;
      var session := call.request.sessionId;
      var existing := FindDecision(Of(tables.decisions, session), call.key);
      if existing.Some? {
        outcome := Redeliver(call, existing.value, supply);
        Kept(before, Deliver(call, supply));
        return;
      }
      if !Known(tables, session) { return Returned(Refusal(SessionNotFound)); }
      var v := ViewOf(tables, session);
      if RowCorrupt(v) { return Returned(Refusal(StateCorrupted)); }
      var authority := AssertHistoryAuthority(codec, session, v);
      if authority.None? { return Threw(HistoryCorrupted); }
      PhaseFromAuthority(codec, v, authority.value);
      var history := authority.value.history;
      var targets := seq(|history|, i requires 0 <= i < |history| => history[i].target);
      var stopped := CheckFresh(v, call, DeriveLifecyclePhase(targets, Some(authority.value.genesisState)));
      if stopped.Some? && stopped.value.Throws? { return Threw(stopped.value.error); }
      var after: Option<Tables>;
      var result: TransitionResult;
      if stopped.Some? {
        result := stopped.value.result;
        after := PersistRejection(tables, call, result, supply);
      } else {
        result := AppliedResult(v, call, supply);
        after := PersistAdmission(tables, call, supply);
      }
      if after.None? { return Threw(WriteRejected); }
      tables := after.value;
      Kept(before, Deliver(call, supply));
      return Returned(result);
    }

    /** `assertEvidenceAppendContext` */
    method CheckAppendContext(session: string, planSha256: string, stateVersion: int, states: set<TaskStatus>)
      returns (problem: Option<StoreError>)
      ensures problem == AppendContext(codec, tables, session, planSha256, stateVersion, states)
    {
      hide AuthorityHolds;
      if !Known(tables, session) { return Some(AppendConflict); }
      var v := ViewOf(tables, session);
      if v.task.status !in states || v.task.stateVersion != stateVersion { return Some(AppendConflict); }
      if v.plan.None? || v.plan.value.sha256 != planSha256 { return Some(AppendConflict); }
      var authority := AssertHistoryAuthority(codec, session, v);
      return if authority.None? then Some(HistoryCorrupted) else None;
    }

    method AppendGateReceipt(session: string, receipt: GateReceipt, eventId: string, now: int)
      returns (outcome: AppendOutcome)
      modifies this`tables
      ensures (tables, outcome) == AppendGate(codec, old(tables), session, receipt, eventId, now)
      ensures old(Valid()) ==> Valid()
    {
      hide AppendContext, StoreInv;
      ghost var before := tables;
      var problem := CheckAppendContext(session, receipt.planSha256, receipt.stateVersion, {Verifying});
      if problem.Some? { return Refused(problem.value); }
      var sequence := NextSequence(tables.gates, GateSequence);
      if exists r :: r in tables.gates && r.body.id == receipt.id { return Refused(WriteRejected); }
      var db := tables.(gates := tables.gates + [Row(session, receipt.(sequence := sequence))]);
      var audited := InsertAudit(
        codec, db, session, eventId, now, receipt.stateVersion, ProofReceiptRecorded(receipt.id, receipt.gateId));
      if audited.None? { return Refused(WriteRejected); }
      tables := audited.value;
      Kept(before, RecordGate(session, receipt, eventId, now));
      return Recorded(sequence, false);
    }

    /** `appendSignedPackage` for gate receipts; `promoted` is whether the package file could be moved into place. */
    method AppendSignedGateReceipt(
      session: string, receipt: SignedGateReceipt, eventId: string, now: int, promoted: bool)
      returns (outcome: AppendOutcome)
      modifies this`tables
      ensures (tables, outcome) == AppendSignedGate(codec, old(tables), session, receipt, eventId, now, promoted)
      ensures old(Valid()) ==> Valid()
    {
      hide AppendContext, StoreInv;
      ghost var before := tables;
      var existing := FindSignedGate(tables.signedGates, session, receipt);
      if existing.Some? {
        if existing.value.body.id == receipt.id && existing.value.sessionId == session
           && existing.value.body.packageSha256 == receipt.packageSha256 {
          return Recorded(existing.value.body.sequence, true);
        }
        return Refused(AppendConflict);
      }
      var problem := CheckAppendContext(session, receipt.planSha256, receipt.stateVersion, {Verifying});
      if problem.Some? { return Refused(problem.value); }
      var sequence := NextSequence(tables.signedGates, SignedGateSequence);
      var db := tables.(signedGates := tables.signedGates + [Row(session, receipt.(sequence := sequence))]);
      var audited := InsertAudit(
        codec, db, session, eventId, now, receipt.stateVersion,
        SignedProofReceiptImported(receipt.id, receipt.gateId, receipt.packageSha256));
      if audited.None? || !promoted { return Refused(WriteRejected); }
      tables := audited.value;
      Kept(before, ImportSignedGate(session, receipt, eventId, now, promoted));
      return Recorded(sequence, false);
    }

    /** `assertReviewSnapshotAdvances`: false where the source throws. */
    method CheckReviewAdvances(prior: seq<ReviewReceipt>, receipt: ReviewReceipt) returns (advances: bool)
      ensures advances <==> ReviewAdvances(prior, receipt)
    {
      for n := 0 to |prior|
        invariant forall i :: 0 <= i < n ==>
                    prior[i].pullRequestNumber == receipt.pullRequestNumber && prior[i].observedAt <= receipt.observedAt
      {
        var snapshot := prior[n];
        assert snapshot in prior;
        if snapshot.pullRequestNumber != receipt.pullRequestNumber { return false; }
        if receipt.observedAt < snapshot.observedAt { return false; }
      }
      return true;
    }

    method AppendSignedReviewReceipt(session: string, receipt: ReviewReceipt, eventId: string, now: int, promoted: bool)
      returns (outcome: AppendOutcome)
      modifies this`tables
      ensures (tables, outcome) == AppendReview(codec, old(tables), session, receipt, eventId, now, promoted)
      ensures old(Valid()) ==> Valid()
    {
      hide AppendContext, StoreInv, ReviewAdvances;
      ghost var before := tables;
      var existing := FindReview(tables.reviews, session, receipt);
      if existing.Some? {
        if existing.value.body.id == receipt.id && existing.value.sessionId == session
           && existing.value.body.packageSha256 == receipt.packageSha256 {
          return Recorded(existing.value.body.sequence, true);
        }
        return Refused(AppendConflict);
      }
      var problem := CheckAppendContext(
        session, receipt.planSha256, receipt.stateVersion, {Reviewing, ReadyForHuman});
      if problem.Some? { return Refused(problem.value); }
      var advances := CheckReviewAdvances(Of(tables.reviews, session), receipt);
      if !advances { return Refused(AppendConflict); }
      var sequence := NextSequence(tables.reviews, ReviewSequence);
      var db := tables.(reviews := tables.reviews + [Row(session, receipt.(sequence := sequence))]);
      var audited := InsertAudit(
        codec, db, session, eventId, now, receipt.stateVersion,
        SignedReviewReceiptImported(receipt.id, receipt.packageSha256, receipt.pullRequestNumber));
      if audited.None? || !promoted { return Refused(WriteRejected); }
      tables := audited.value;
      Kept(before, ImportReview(session, receipt, eventId, now, promoted));
      return Recorded(sequence, false);
    }
  }

  /** The phase derived from the history reader's answer is the phase of the stored rows. */
  lemma PhaseFromAuthority(codec: Codec, v: View, authority: Authority)
    requires forall row :: row in OrderBy(v.transitions, ToVersion) ==> codec.parseInput(row.inputJson).Some?
    requires authority.history == ToHistory(codec, OrderBy(v.transitions, ToVersion))
    requires Genesis(OrderBy(v.audit, SequenceOf)).Some?
    requires authority.genesisState == Genesis(OrderBy(v.audit, SequenceOf)).value.1
    ensures
      var history := authority.history;
      var targets := seq(|history|, i requires 0 <= i < |history| => history[i].target);
      DeriveLifecyclePhase(targets, Some(authority.genesisState)) == PhaseOf(v)
  {
    hide OrderBy;
    var history := authority.history;
    assert seq(|history|, i requires 0 <= i < |history| => history[i].target) == HistoryTargets(v);
  }
}

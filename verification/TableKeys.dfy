/** Keys of whole tables, over every run: no identifier is given twice, whichever session it is given to. */
module TableKeys {
  import opened Options
  import opened Lifecycle
  import opened ProofEvidence
  import opened AuditLedger
  import opened Rows
  import opened StoreTables
  import opened SessionStore
  import opened StoreSteps
  import opened StoreRuns

  ghost predicate AuditKeys(rows: seq<Row<StoredEvent>>) {
    forall i, j :: 0 <= i < j < |rows| ==> rows[i].body.value.id != rows[j].body.value.id
  }

  ghost predicate GateKeys(rows: seq<Row<GateReceipt>>) {
    forall i, j :: 0 <= i < j < |rows| ==> rows[i].body.id != rows[j].body.id
  }

  /** Neither an identifier, nor a version of a task, is given to two transitions. */
  ghost predicate TransitionKeys(rows: seq<Row<Transition>>) {
    forall i, j :: 0 <= i < j < |rows| ==>
      && rows[i].body.id != rows[j].body.id
      && (rows[i].body.taskId != rows[j].body.taskId || rows[i].body.toVersion != rows[j].body.toVersion)
  }

  ghost predicate Keys(db: Tables) {
    AuditKeys(db.audit) && GateKeys(db.gates) && TransitionKeys(db.transitions)
  }

  lemma AuditKept(
    codec: Codec, db: Tables, session: string, id: string, at: int, stateVersion: int, payload: AuditPayload)
    requires AuditKeys(db.audit)
    ensures
      var after := InsertAudit(codec, db, session, id, at, stateVersion, payload);
      after.Some? ==> AuditKeys(after.value.audit) && after.value == db.(audit := after.value.audit)
  {
    hide NextEvent, EventCollides;
    var tail := Tail(OrderBy(Of(db.audit, session), SequenceOf));
    var event := NextEvent(codec.hashing, tail, id, session, at, stateVersion, payload);
    if event.Some? { NextEventIsNamed(codec.hashing, tail, id, session, at, stateVersion, payload); }
  }

  lemma NextEventIsNamed(
    hashing: Hashing, tail: Option<StoredEvent>, id: string, sessionId: string, at: int, stateVersion: int,
    payload: AuditPayload)
    ensures
      var event := NextEvent(hashing, tail, id, sessionId, at, stateVersion, payload);
      event.Some? ==> event.value.value.id == id
  {
  }

  lemma GateKept(codec: Codec, db: Tables, session: string, gate: GateReceipt, eventId: string, now: int)
    requires Keys(db)
    ensures Keys(AppendGate(codec, db, session, gate, eventId, now).0)
  {
    hide AppendContext, InsertAudit, AuditKeys, TransitionKeys, NextSequence;
    var row := gate.(sequence := NextSequence(db.gates, GateSequence));
    AuditKept(
      codec, db.(gates := db.gates + [Row(session, row)]), session, eventId, now, gate.stateVersion,
      ProofReceiptRecorded(gate.id, gate.gateId));
  }

  lemma ImportKept(codec: Codec, db: Tables, step: Step)
    requires Keys(db) && (step.ImportSignedGate? || step.ImportReview?)
    ensures Keys(Next(codec, db, step))
  {
    hide AppendContext, InsertAudit, AuditKeys, GateKeys, TransitionKeys, NextSequence, FindSignedGate, FindReview,
      ReviewAdvances;
    match step
    case ImportSignedGate(session, receipt, eventId, now, _) =>
      var row := receipt.(sequence := NextSequence(db.signedGates, SignedGateSequence));
      AuditKept(
        codec, db.(signedGates := db.signedGates + [Row(session, row)]), session, eventId, now, receipt.stateVersion,
        SignedProofReceiptImported(receipt.id, receipt.gateId, receipt.packageSha256));
    case ImportReview(session, receipt, eventId, now, _) =>
      var row := receipt.(sequence := NextSequence(db.reviews, ReviewSequence));
      AuditKept(
        codec, db.(reviews := db.reviews + [Row(session, row)]), session, eventId, now, receipt.stateVersion,
        SignedReviewReceiptImported(receipt.id, receipt.packageSha256, receipt.pullRequestNumber));
  }

  lemma StartKept(codec: Codec, db: Tables, taskId: string, session: string, eventId: string, now: int)
    requires Keys(db) && StartSession(codec, db, taskId, session, eventId, now).Some?
    ensures Keys(StartSession(codec, db, taskId, session, eventId, now).value)
  {
    hide InsertAudit, AuditKeys, GateKeys, TransitionKeys, OpenSessions, SoleSession;
    AuditKept(
      codec,
      db.(tasks := db.tasks[taskId := TaskRow(Queued, 0, None)],
          sessions := db.sessions[session := SessionRow(taskId, None)]),
      session, eventId, now, 0, SessionStarted(taskId, Queued));
  }

  lemma RefusalKept(codec: Codec, db: Tables, call: TransitionCall, result: TransitionResult, supply: Supply)
    requires Keys(db) && Known(db, call.request.sessionId)
    ensures RecordRejection(codec, db, call, result, supply).Some? ==>
              Keys(RecordRejection(codec, db, call, result, supply).value)
    ensures RecordConflictRow(codec, db, call, result, supply).Some? ==>
              Keys(RecordConflictRow(codec, db, call, result, supply).value)
  {
    hide InsertAudit, AuditKeys, GateKeys, TransitionKeys, ViewOf;
    var session := call.request.sessionId;
    var v := ViewOf(db, session);
    AuditKept(
      codec, db.(decisions := db.decisions + [Row(session, RejectionRow(codec, call, result))]), session,
      supply.decisionEventId, supply.now, v.task.stateVersion, RejectedDecision(codec, v, call));
    AuditKept(
      codec, db.(conflicts := db.conflicts + [Row(session, ConflictRow(codec, call, result))]), session,
      supply.decisionEventId, supply.now, v.task.stateVersion, RejectedDecision(codec, v, call));
  }

  lemma AdmissionKept(codec: Codec, db: Tables, call: TransitionCall, supply: Supply)
    requires Keys(db) && Known(db, call.request.sessionId) && RecordAdmission(codec, db, call, supply).Some?
    ensures Keys(RecordAdmission(codec, db, call, supply).value)
  {
    hide InsertAudit, AuditKeys, GateKeys, ViewOf, AdmittedRows, AppliedRow, AppliedEvent;
    AdmittedFields(codec, db, call, supply);
    var session := call.request.sessionId;
    var v := ViewOf(db, session);
    var rows := AdmittedRows(codec, db, call, supply);
    var decision := GuardDecisionMade(call.key, RequestSha256(codec, call), v.task.status, call.request.target, true);
    AuditKept(codec, rows, session, supply.decisionEventId, supply.now, v.task.stateVersion, decision);
    var decided := InsertAudit(codec, rows, session, supply.decisionEventId, supply.now, v.task.stateVersion, decision);
    AuditKept(
      codec, decided.value, session, supply.appliedEventId, supply.now, v.task.stateVersion + 1,
      AppliedEvent(codec, v, call, supply));
  }

  lemma DeliveryKept(codec: Codec, db: Tables, call: TransitionCall, supply: Supply)
    requires Keys(db)
    ensures Keys(ApplyTransition(codec, db, call, supply).0)
  {
    hide RecordAdmission, RecordRejection, RecordConflictRow, Keys, AuthorityHolds, JudgeFresh, JudgeRedelivery,
      ViewOf;
    match Judge(codec, db, call)
    case Admit => if RecordAdmission(codec, db, call, supply).Some? { AdmissionKept(codec, db, call, supply); }
    case Reject(result) => RefusalKept(codec, db, call, result, supply);
    case RecordConflict(result) => RefusalKept(codec, db, call, result, supply);
    case _ =>
  }

  /** After any run, the identifiers of events, of receipts and of transitions are keys of their whole tables. */
  lemma {:induction false} KeysAreHeld(codec: Codec, steps: seq<Step>)
    ensures Keys(After(codec, steps))
  {
    hide Keys, ApplyTransition, AppendGate, AppendSignedGate, AppendReview, StartSession;
    if steps == [] {
      assert Keys(EMPTY_TABLES) by { NoKeys(); }
    } else {
      var before, step := steps[..|steps| - 1], steps[|steps| - 1];
      var db := After(codec, before);
      KeysAreHeld(codec, before);
      match step
      case Start(taskId, session, eventId, now) =>
        if StartSession(codec, db, taskId, session, eventId, now).Some? {
          StartKept(codec, db, taskId, session, eventId, now);
        }
      case Deliver(call, supply) => DeliveryKept(codec, db, call, supply);
      case RecordGate(session, gate, eventId, now) => GateKept(codec, db, session, gate, eventId, now);
      case _ => ImportKept(codec, db, step);
    }
  }

  lemma NoKeys()
    ensures Keys(EMPTY_TABLES)
  {
  }
}

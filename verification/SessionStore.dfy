/**
 * The write transactions of src/adapters/fs/sqlite-store.ts. Each is specified by a function from the committed tables
 * to the next committed tables; the class runs the same transaction row by row, and rolls back where the source throws.
 * Identifiers and clocks are arguments: a transaction whose identifier is already taken is rejected by its table.
 */
module SessionStore {
  import opened Options
  import opened JsonValues
  import opened Lifecycle
  import opened SessionTransition
  import opened ProofEvidence
  import opened AuditLedger
  import opened Rows
  import opened StoreTables

  /** The guard decision `transitionSession` hands to the store: a prepared rejection, or guards under a context. */
  datatype GuardEvaluator = PreparedRejection(failure: string) | UnderContext(context: GuardContext)

  datatype TransitionCall = TransitionCall(
    request: TransitionRequest, key: string, boundPlan: Option<BoundPlan>, watermark: Option<Watermark>,
    guards: GuardEvaluator)

  /** Identifiers and the clock, as the runtime supplies them. */
  datatype Supply = Supply(transitionId: string, decisionEventId: string, appliedEventId: string, now: int)

  datatype StoreError = HistoryCorrupted | EvidenceChanged | PlanOutsideFramed | AppendConflict | WriteRejected

  datatype Outcome = Returned(result: TransitionResult) | Threw(error: StoreError)

  datatype AppendOutcome = Recorded(sequence: int, alreadyImported: bool) | Refused(reason: StoreError)

  // ----- lookups

  function RequestJson(codec: Codec, call: TransitionCall): string {
    codec.printRequest(call.request)
  }

  function RequestSha256(codec: Codec, call: TransitionCall): string {
    codec.hashing.digest(RequestJson(codec, call))
  }

  function FindDecision(decisions: seq<Decision>, key: string): Option<Decision> {
    if decisions == [] then None
    else if decisions[0].key == key then Some(decisions[0])
    else FindDecision(decisions[1..], key)
  }

  function FindConflict(conflicts: seq<Conflict>, key: string, sha256: string, json: string): Option<Conflict> {
    if conflicts == [] then None
    else if conflicts[0].key == key && conflicts[0].requestSha256 == sha256 && conflicts[0].requestJson == json then
      Some(conflicts[0])
    else FindConflict(conflicts[1..], key, sha256, json)
  }

  function RunGuards(
    guards: GuardEvaluator, source: TaskStatus, target: TaskStatus, input: Json, blockedFrom: Option<TaskStatus>)
    : GuardDecision
  {
    match guards
    case PreparedRejection(failure) => GuardsDenied(failure)
    case UnderContext(context) => EvaluateTransitionGuards(source, target, input, blockedFrom, context)
  }

  // ----- the projection of open sessions

  function OpenSessions(db: Tables): set<(string, string)> {
    set s | s in db.sessions
            && db.sessions[s].taskId in db.tasks
            && db.tasks[db.sessions[s].taskId].status != Completed
            && db.sessions[s].endedAt.None?
        :: (s, db.sessions[s].taskId)
  }

  function SoleSession(open: set<(string, string)>): Option<(string, string)> {
    if exists p :: p in open && open == {p} then
      var p :| p in open && open == {p};
      Some(p)
    else None
  }

  function WriteActiveProjection(db: Tables): Tables {
    db.(activeSessions := OpenSessions(db), activeState := SoleSession(OpenSessions(db)))
  }

  // ----- the ledger

  predicate EventIdTaken(db: Tables, id: string) {
    exists row :: row in db.audit && row.body.value.id == id
  }

  predicate EventCollides(db: Tables, session: string, event: StoredEvent) {
    exists row :: row in db.audit && row.sessionId == session
      && (row.body.value.sequence == event.value.sequence || row.body.sha256 == event.sha256)
  }

  /** `appendAuditEvent`; `None` where it throws or a unique key rejects the row. */
  function InsertAudit(
    codec: Codec, db: Tables, session: string, id: string, at: int, stateVersion: int, payload: AuditPayload)
    : Option<Tables>
  {
    var tail := Tail(OrderBy(Of(db.audit, session), SequenceOf));
    var event := NextEvent(codec.hashing, tail, id, session, at, stateVersion, payload);
    if event.None? || EventIdTaken(db, id) || EventCollides(db, session, event.value) then None
    else Some(db.(audit := db.audit + [Row(session, event.value)]))
  }

  // ----- applySessionTransition

  datatype Verdict =
    | ReturnOnly(result: TransitionResult)
    | Throws(error: StoreError)
    | RecordConflict(result: TransitionResult)
    | Reject(result: TransitionResult)
    | Admit

  function HistoryTargets(v: View): seq<TaskStatus> {
    var rows := OrderBy(v.transitions, ToVersion);
    seq(|rows|, i requires 0 <= i < |rows| => rows[i].target)
  }

  function GenesisState(v: View): Option<TaskStatus> {
    var genesis := Genesis(OrderBy(v.audit, SequenceOf));
    if genesis.Some? then Some(genesis.value.1) else None
  }

  function PhaseOf(v: View): Phase {
    DeriveLifecyclePhase(HistoryTargets(v), GenesisState(v))
  }

  /** The decision of the transaction, before anything is written. */
  ghost function Judge(codec: Codec, db: Tables, call: TransitionCall): Verdict {
    var session := call.request.sessionId;
    var existing := FindDecision(Of(db.decisions, session), call.key);
    if existing.Some? then
      if !Known(db, session) || !AuthorityHolds(codec, session, ViewOf(db, session)) then Throws(HistoryCorrupted)
      else JudgeRedelivery(codec, ViewOf(db, session), call, existing.value)
    else if !Known(db, session) then ReturnOnly(Refusal(SessionNotFound))
    else if RowCorrupt(ViewOf(db, session)) then ReturnOnly(Refusal(StateCorrupted))
    else if !AuthorityHolds(codec, session, ViewOf(db, session)) then Throws(HistoryCorrupted)
    else JudgeFresh(ViewOf(db, session), call)
  }

  function JudgeRedelivery(codec: Codec, v: View, call: TransitionCall, existing: Decision): Verdict {
    var sha256, json := RequestSha256(codec, call), RequestJson(codec, call);
    if existing.requestSha256 == sha256 && existing.requestJson == json then ReturnOnly(existing.result)
    else
      var prior := FindConflict(v.conflicts, call.key, sha256, json);
      if prior.Some? then ReturnOnly(prior.value.result)
      else RecordConflict(Refusal(IdempotencyConflict(existing.requestSha256)))
  }

  /** The checks of a first delivery, in the source's order. */
  function JudgeFresh(v: View, call: TransitionCall): Verdict {
    var target := call.request.target;
    var structural := EvaluateLifecycleTransition(v.task.status, target, v.task.blockedFrom, Some(PhaseOf(v)));
    if call.request.expectedVersion != v.task.stateVersion then
      Reject(Refusal(StateVersionConflict(v.task.stateVersion)))
    else if !structural.TransitionAllowed? then Reject(Refusal(TransitionNotAllowed(structural)))
    else if call.watermark.Some? && call.watermark.value != ReadWatermark(v) then Throws(EvidenceChanged)
    else
      var guards := RunGuards(call.guards, v.task.status, target, call.request.input, v.task.blockedFrom);
      if guards.GuardsDenied? then Reject(Refusal(TransitionGuardFailed(guards.failure)))
      else if call.boundPlan.Some? && !(v.task.status == Framed && target == ProofReady) then Throws(PlanOutsideFramed)
      else Admit
  }

  function RejectedDecision(codec: Codec, v: View, call: TransitionCall): AuditPayload {
    GuardDecisionMade(call.key, RequestSha256(codec, call), v.task.status, call.request.target, false)
  }

  function RejectionRow(codec: Codec, call: TransitionCall, result: TransitionResult): Decision {
    Decision(call.key, RequestJson(codec, call), RequestSha256(codec, call), false, result)
  }

  function ConflictRow(codec: Codec, call: TransitionCall, result: TransitionResult): Conflict {
    Conflict(call.key, RequestJson(codec, call), RequestSha256(codec, call), result)
  }

  function RecordRejection(codec: Codec, db: Tables, call: TransitionCall, result: TransitionResult, supply: Supply)
    : Option<Tables>
    requires Known(db, call.request.sessionId)
  {
    var session := call.request.sessionId;
    var v := ViewOf(db, session);
    var row := RejectionRow(codec, call, result);
    InsertAudit(
      codec, db.(decisions := db.decisions + [Row(session, row)]), session, supply.decisionEventId, supply.now,
      v.task.stateVersion, RejectedDecision(codec, v, call))
  }

  function RecordConflictRow(codec: Codec, db: Tables, call: TransitionCall, result: TransitionResult, supply: Supply)
    : Option<Tables>
    requires Known(db, call.request.sessionId)
  {
    var session := call.request.sessionId;
    var v := ViewOf(db, session);
    var row := ConflictRow(codec, call, result);
    InsertAudit(
      codec, db.(conflicts := db.conflicts + [Row(session, row)]), session, supply.decisionEventId, supply.now,
      v.task.stateVersion, RejectedDecision(codec, v, call))
  }

  predicate TransitionCollides(db: Tables, row: Transition) {
    exists r :: r in db.transitions
      && (r.body.id == row.id || (r.body.taskId == row.taskId && r.body.toVersion == row.toVersion))
  }

  /** What an admitted transition writes for its session, apart from the ledger. */
  function AppliedRow(codec: Codec, v: View, call: TransitionCall, supply: Supply): Transition {
    Transition(
      supply.transitionId, v.taskId, v.task.status, call.request.target, v.task.stateVersion, v.task.stateVersion + 1,
      call.request.actor, codec.printInput(call.request.input), RequestSha256(codec, call), supply.now)
  }

  function AppliedTask(v: View, call: TransitionCall): TaskRow {
    TaskRow(call.request.target, v.task.stateVersion + 1,
            if call.request.target == Blocked then Some(v.task.status) else None)
  }

  function AppliedResult(v: View, call: TransitionCall, supply: Supply): TransitionResult {
    Succeeded(
      supply.transitionId, v.task.status, call.request.target, v.task.stateVersion, v.task.stateVersion + 1,
      AppliedTask(v, call).blockedFrom, if call.request.target == Completed then Some(supply.now) else None)
  }

  function AppliedDecision(codec: Codec, v: View, call: TransitionCall, supply: Supply): Decision {
    Decision(call.key, RequestJson(codec, call), RequestSha256(codec, call), true, AppliedResult(v, call, supply))
  }

  function AppliedEvent(codec: Codec, v: View, call: TransitionCall, supply: Supply): AuditPayload {
    var review := ReadPrePrReviewEvidence(call.request.input);
    TransitionApplied(
      supply.transitionId, RequestSha256(codec, call), v.task.status, call.request.target, v.task.stateVersion,
      v.task.stateVersion + 1, if review.Some? then Some(SummarizePrePrReview(review.value)) else None)
  }

  /** The rows of an admitted transition, before its two ledger events. */
  function AdmittedRows(codec: Codec, db: Tables, call: TransitionCall, supply: Supply): Tables
    requires Known(db, call.request.sessionId)
  {
    var session := call.request.sessionId;
    var v := ViewOf(db, session);
    var planned := if call.boundPlan.Some? then db.(plans := db.plans[session := call.boundPlan.value]) else db;
    var moved := planned.(tasks := planned.tasks[v.taskId := AppliedTask(v, call)]);
    var ended :=
      if call.request.target == Completed
      then WriteActiveProjection(
             moved.(sessions := moved.sessions[session := moved.sessions[session].(endedAt := Some(supply.now))]))
      else moved;
    ended.(
      transitions := ended.transitions + [Row(session, AppliedRow(codec, v, call, supply))],
      decisions := ended.decisions
                   + [Row(session, AppliedDecision(codec, v, call, supply))])
  }

  function RecordAdmission(codec: Codec, db: Tables, call: TransitionCall, supply: Supply): Option<Tables>
    requires Known(db, call.request.sessionId)
  {
    var session := call.request.sessionId;
    var v := ViewOf(db, session);
    if call.boundPlan.Some? && session in db.plans then None
    else if call.request.target == Completed && v.endedAt.Some? then None
    else if TransitionCollides(db, AppliedRow(codec, v, call, supply)) then None
    else
      var decided := InsertAudit(
                       codec, AdmittedRows(codec, db, call, supply), session, supply.decisionEventId, supply.now,
                       v.task.stateVersion,
                       GuardDecisionMade(
                         call.key, RequestSha256(codec, call), v.task.status, call.request.target, true));
      if decided.None? then None
      else
        InsertAudit(
          codec, decided.value, session, supply.appliedEventId, supply.now, v.task.stateVersion + 1,
          AppliedEvent(codec, v, call, supply))
  }

  ghost function ApplyTransition(codec: Codec, db: Tables, call: TransitionCall, supply: Supply): (Tables, Outcome) {
    match Judge(codec, db, call)
    case ReturnOnly(result) => (db, Returned(result))
    case Throws(error) => (db, Threw(error))
    case RecordConflict(result) => Committed(db, RecordConflictRow(codec, db, call, result, supply), result)
    case Reject(result) => Committed(db, RecordRejection(codec, db, call, result, supply), result)
    case Admit =>
      Committed(db, RecordAdmission(codec, db, call, supply),
                AppliedResult(ViewOf(db, call.request.sessionId), call, supply))
  }

  function Committed(before: Tables, after: Option<Tables>, result: TransitionResult): (Tables, Outcome) {
    if after.Some? then (after.value, Returned(result)) else (before, Threw(WriteRejected))
  }

  // ----- starting a session

  function StartSession(codec: Codec, db: Tables, taskId: string, session: string, eventId: string, now: int)
    : Option<Tables>
  {
    if taskId in db.tasks || session in db.sessions then None
    else
      var inserted := db.(tasks := db.tasks[taskId := TaskRow(Queued, 0, None)],
                          sessions := db.sessions[session := SessionRow(taskId, None)]);
      var started := InsertAudit(codec, inserted, session, eventId, now, 0, SessionStarted(taskId, Queued));
      if started.None? then None else Some(WriteActiveProjection(started.value))
  }

  // ----- evidence appends

  function NextSequence<T>(rows: seq<Row<T>>, sequence: T -> int): int {
    if rows == [] then 1 else sequence(rows[|rows| - 1].body) + 1
  }

  /** `assertEvidenceAppendContext`: the state, version and plan the evidence was produced against still stand. */
  ghost function AppendContext(
    codec: Codec, db: Tables, session: string, planSha256: string, stateVersion: int, states: set<TaskStatus>)
    : Option<StoreError>
  {
    if !Known(db, session) then Some(AppendConflict)
    else
      var v := ViewOf(db, session);
      if v.task.status !in states || v.task.stateVersion != stateVersion then Some(AppendConflict)
      else if v.plan.None? || v.plan.value.sha256 != planSha256 then Some(AppendConflict)
      else if !AuthorityHolds(codec, session, v) then Some(HistoryCorrupted)
      else None
  }

  function InsertGate(codec: Codec, db: Tables, session: string, receipt: GateReceipt, eventId: string, now: int)
    : Option<Tables>
  {
    var row := receipt.(sequence := NextSequence(db.gates, GateSequence));
    if exists r :: r in db.gates && r.body.id == row.id then None
    else
      InsertAudit(
        codec, db.(gates := db.gates + [Row(session, row)]), session, eventId, now, receipt.stateVersion,
        ProofReceiptRecorded(receipt.id, receipt.gateId))
  }

  ghost function AppendGate(
    codec: Codec, db: Tables, session: string, receipt: GateReceipt, eventId: string, now: int): (Tables, AppendOutcome)
  {
    var problem := AppendContext(codec, db, session, receipt.planSha256, receipt.stateVersion, {Verifying});
    if problem.Some? then (db, Refused(problem.value))
    else
      AppendCommitted(
        db, InsertGate(codec, db, session, receipt, eventId, now), NextSequence(db.gates, GateSequence))
  }

  function AppendCommitted(before: Tables, after: Option<Tables>, sequence: int): (Tables, AppendOutcome) {
    if after.Some? then (after.value, Recorded(sequence, false)) else (before, Refused(WriteRejected))
  }

  /** The first row sharing the identifier, or the package bytes within the session. */
  function FindSignedGate(rows: seq<Row<SignedGateReceipt>>, session: string, receipt: SignedGateReceipt)
    : Option<Row<SignedGateReceipt>>
  {
    if rows == [] then None
    else if rows[0].body.id == receipt.id
            || (rows[0].sessionId == session && rows[0].body.packageSha256 == receipt.packageSha256) then Some(rows[0])
    else FindSignedGate(rows[1..], session, receipt)
  }

  function FindReview(rows: seq<Row<ReviewReceipt>>, session: string, receipt: ReviewReceipt)
    : Option<Row<ReviewReceipt>>
  {
    if rows == [] then None
    else if rows[0].body.id == receipt.id
            || (rows[0].sessionId == session && rows[0].body.packageSha256 == receipt.packageSha256) then Some(rows[0])
    else FindReview(rows[1..], session, receipt)
  }

  function InsertSignedGate(
    codec: Codec, db: Tables, session: string, receipt: SignedGateReceipt, eventId: string, now: int): Option<Tables>
  {
    var row := receipt.(sequence := NextSequence(db.signedGates, SignedGateSequence));
    InsertAudit(
      codec, db.(signedGates := db.signedGates + [Row(session, row)]), session, eventId, now, receipt.stateVersion,
      SignedProofReceiptImported(receipt.id, receipt.gateId, receipt.packageSha256))
  }

  /** `promoted` is whether moving the package file into place succeeded; a failure rolls everything back. */
  ghost function AppendSignedGate(
    codec: Codec, db: Tables, session: string, receipt: SignedGateReceipt, eventId: string, now: int, promoted: bool)
    : (Tables, AppendOutcome)
  {
    var existing := FindSignedGate(db.signedGates, session, receipt);
    var problem := AppendContext(codec, db, session, receipt.planSha256, receipt.stateVersion, {Verifying});
    if existing.Some? then
      if existing.value.body.id == receipt.id && existing.value.sessionId == session
         && existing.value.body.packageSha256 == receipt.packageSha256
      then (db, Recorded(existing.value.body.sequence, true))
      else (db, Refused(AppendConflict))
    else if problem.Some? then (db, Refused(problem.value))
    else
      AppendCommitted(
        db, if promoted then InsertSignedGate(codec, db, session, receipt, eventId, now) else None,
        NextSequence(db.signedGates, SignedGateSequence))
  }

  /** `assertReviewSnapshotAdvances` */
  predicate ReviewAdvances(prior: seq<ReviewReceipt>, receipt: ReviewReceipt) {
    forall r :: r in prior ==>
      r.pullRequestNumber == receipt.pullRequestNumber && r.observedAt <= receipt.observedAt
  }

  function InsertReview(
    codec: Codec, db: Tables, session: string, receipt: ReviewReceipt, eventId: string, now: int): Option<Tables>
  {
    var row := receipt.(sequence := NextSequence(db.reviews, ReviewSequence));
    InsertAudit(
      codec, db.(reviews := db.reviews + [Row(session, row)]), session, eventId, now, receipt.stateVersion,
      SignedReviewReceiptImported(receipt.id, receipt.packageSha256, receipt.pullRequestNumber))
  }

  ghost function AppendReview(
    codec: Codec, db: Tables, session: string, receipt: ReviewReceipt, eventId: string, now: int, promoted: bool)
    : (Tables, AppendOutcome)
  {
    var existing := FindReview(db.reviews, session, receipt);
    var problem :=
      AppendContext(codec, db, session, receipt.planSha256, receipt.stateVersion, {Reviewing, ReadyForHuman});
    if existing.Some? then
      if existing.value.body.id == receipt.id && existing.value.sessionId == session
         && existing.value.body.packageSha256 == receipt.packageSha256
      then (db, Recorded(existing.value.body.sequence, true))
      else (db, Refused(AppendConflict))
    else if problem.Some? then (db, Refused(problem.value))
    else if !ReviewAdvances(Of(db.reviews, session), receipt) then (db, Refused(AppendConflict))
    else
      AppendCommitted(
        db, if promoted then InsertReview(codec, db, session, receipt, eventId, now) else None,
        NextSequence(db.reviews, ReviewSequence))
  }
}

/** The invariant of the whole store, and its preservation by every write transaction, for every session at once. */
module StoreSteps {
  import opened Options
  import opened JsonValues
  import opened Lifecycle
  import opened ProofEvidence
  import opened AuditLedger
  import opened Rows
  import opened StoreTables
  import opened SessionStore
  import opened StoreAnswers
  import opened StoreInvariant

  /** A table whose AUTOINCREMENT column starts at 1 and increases. */
  ghost predicate Sequenced<T>(rows: seq<Row<T>>, sequence: T -> int) {
    && (forall i :: 0 <= i < |rows| ==> 0 < sequence(rows[i].body))
    && (forall i, j :: 0 <= i < j < |rows| ==> sequence(rows[i].body) < sequence(rows[j].body))
  }

  ghost predicate Owned<T>(rows: seq<Row<T>>, sessions: map<string, SessionRow>) {
    forall i :: 0 <= i < |rows| ==> rows[i].sessionId in sessions
  }

  ghost predicate TablesInv(db: Tables) {
    && (forall s :: s in db.sessions ==> db.sessions[s].taskId in db.tasks)
    && (forall s, t :: s in db.sessions && t in db.sessions && s != t ==>
          db.sessions[s].taskId != db.sessions[t].taskId)
    && db.plans.Keys <= db.sessions.Keys
    && Owned(db.transitions, db.sessions) && Owned(db.decisions, db.sessions) && Owned(db.conflicts, db.sessions)
    && Owned(db.gates, db.sessions) && Owned(db.signedGates, db.sessions) && Owned(db.reviews, db.sessions)
    && Owned(db.audit, db.sessions)
    && Sequenced(db.gates, GateSequence)
    && Sequenced(db.signedGates, SignedGateSequence)
    && Sequenced(db.reviews, ReviewSequence)
  }

  /** `active_sessions` and `active_state` are what recomputing them from the open sessions would give. */
  ghost predicate ProjectionCurrent(db: Tables) {
    db.activeSessions == OpenSessions(db) && db.activeState == SoleSession(OpenSessions(db))
  }

  ghost predicate StoreInv(codec: Codec, db: Tables) {
    && TablesInv(db)
    && ProjectionCurrent(db)
    && forall s {:trigger SessionInv(codec, s, ViewOf(db, s))} ::
         s in db.sessions ==> SessionInv(codec, s, ViewOf(db, s))
  }

  /** The transaction gave `session` the view `w` and left every other session as it was. */
  ghost predicate Updates(db: Tables, after: Tables, session: string, w: View) {
    && after.sessions.Keys == db.sessions.Keys
    && session in db.sessions
    && Known(after, session) && ViewOf(after, session) == w
    && forall t {:trigger ViewOf(after, t)} {:trigger Known(after, t)} ::
         t in db.sessions && t != session && Known(db, t) ==> Known(after, t) && ViewOf(after, t) == ViewOf(db, t)
  }

  // ----- tables only grow

  /**
   * Every table is append-only, a bound plan stays bound, binding one takes a transition, and a new review snapshot
   * carries the version the session had reached.
   */
  ghost predicate Grows(v: View, w: View) {
    && v.taskId == w.taskId
    && v.transitions <= w.transitions
    && v.decisions <= w.decisions
    && v.conflicts <= w.conflicts
    && v.gates <= w.gates
    && v.signedGates <= w.signedGates
    && v.reviews <= w.reviews
    && v.audit <= w.audit
    && (v.plan.Some? ==> w.plan == v.plan)
    && (v.plan != w.plan ==> |v.transitions| < |w.transitions|)
    && forall i :: |v.reviews| <= i < |w.reviews| ==> |v.transitions| <= w.reviews[i].stateVersion
  }

  lemma GrowsReflexive(v: View)
    ensures Grows(v, v)
  {
  }

  lemma GrowsTransitive(u: View, v: View, w: View)
    requires Grows(u, v) && Grows(v, w)
    ensures Grows(u, w)
  {
  }

  ghost predicate StoreGrows(db: Tables, after: Tables) {
    forall t {:trigger Known(after, t)} {:trigger ViewOf(after, t)} ::
      t in db.sessions && Known(db, t) ==>
        t in after.sessions && Known(after, t) && Grows(ViewOf(db, t), ViewOf(after, t))
  }

  lemma StoreGrowsReflexive(db: Tables)
    ensures StoreGrows(db, db)
  {
  }

  // ----- one ledger event

  lemma AuditEffect(
    codec: Codec, db: Tables, session: string, id: string, at: int, stateVersion: int, payload: AuditPayload)
    returns (event: StoredEvent)
    requires InsertAudit(codec, db, session, id, at, stateVersion, payload).Some?
    requires ChainValid(codec.hashing, Of(db.audit, session))
    ensures InsertAudit(codec, db, session, id, at, stateVersion, payload).value
            == db.(audit := db.audit + [Row(session, event)])
    ensures ChainValid(codec.hashing, Of(db.audit, session) + [event])
    ensures event.value.payload == payload && event.value.stateVersion == stateVersion && IsSafeInteger(stateVersion)
    ensures forall t :: Of(db.audit + [Row(session, event)], t)
                        == Of(db.audit, t) + if t == session then [event] else []
  {
    var events := Of(db.audit, session);
    ChainAscends(codec.hashing, events);
    OrderByAscending(events, SequenceOf);
    event := NextEvent(codec.hashing, Tail(events), id, session, at, stateVersion, payload).value;
    AppendKeepsChain(codec.hashing, events, id, session, at, stateVersion, payload);
    OfAppend(db.audit, Row(session, event));
  }

  lemma OneSession(codec: Codec, db: Tables, session: string)
    requires StoreInv(codec, db) && session in db.sessions
    ensures Known(db, session) && SessionInv(codec, session, ViewOf(db, session))
  {
  }

  lemma OthersGrow(db: Tables, after: Tables, session: string, w: View)
    requires Updates(db, after, session, w) && Known(db, session) && Grows(ViewOf(db, session), w)
    ensures StoreGrows(db, after)
  {
    hide Grows;
    forall t | t in db.sessions && Known(db, t)
      ensures t in after.sessions && Known(after, t) && Grows(ViewOf(db, t), ViewOf(after, t))
    {
      if t != session { GrowsReflexive(ViewOf(db, t)); }
    }
  }

  /** A transaction that keeps the tables in order and its own session's invariant keeps the whole store's. */
  lemma StoreKeeps(codec: Codec, db: Tables, after: Tables, session: string, w: View)
    requires StoreInv(codec, db) && Updates(db, after, session, w) && Grows(ViewOf(db, session), w)
    requires TablesInv(after) && ProjectionCurrent(after) && SessionInv(codec, session, w)
    ensures StoreInv(codec, after) && StoreGrows(db, after)
  {
    hide SessionInv, Grows, ViewOf, Sequenced, Owned;
    OthersGrow(db, after, session, w);
    forall s | s in after.sessions ensures SessionInv(codec, s, ViewOf(after, s)) {
      if s != session { assert SessionInv(codec, s, ViewOf(db, s)); }
    }
  }

  /** Rows of a known session may be appended to the tables that carry no sequence of their own. */
  lemma PlainAppend(
    db: Tables, after: Tables, session: string, decisions: seq<Row<Decision>>, conflicts: seq<Row<Conflict>>,
    event: StoredEvent)
    requires TablesInv(db) && ProjectionCurrent(db) && session in db.sessions
    requires after == db.(decisions := db.decisions + decisions, conflicts := db.conflicts + conflicts,
                          audit := db.audit + [Row(session, event)])
    requires forall row :: row in decisions ==> row.sessionId == session
    requires forall row :: row in conflicts ==> row.sessionId == session
    ensures TablesInv(after) && ProjectionCurrent(after)
  {
    assert OpenSessions(after) == OpenSessions(db);
  }

  // ----- rejections, conflicts

  /** A first delivery is rejected, admitted, or throws; it never merely returns. */
  lemma FreshVerdicts(v: View, call: TransitionCall)
    ensures !JudgeFresh(v, call).ReturnOnly? && !JudgeFresh(v, call).RecordConflict?
    ensures JudgeFresh(v, call).Reject? ==> IsFirstRefusal(JudgeFresh(v, call).result)
  {
  }

  lemma JudgedOnView(codec: Codec, db: Tables, call: TransitionCall)
    requires Judge(codec, db, call).Reject? || Judge(codec, db, call).Admit? || Judge(codec, db, call).RecordConflict?
    requires TablesInv(db)
    ensures Known(db, call.request.sessionId)
    ensures
      var v := ViewOf(db, call.request.sessionId);
      match Judge(codec, db, call)
      case RecordConflict(result) =>
        && FindDecision(v.decisions, call.key).Some?
        && FindConflict(v.conflicts, call.key, RequestSha256(codec, call), RequestJson(codec, call)).None?
        && NamesOwner(FindDecision(v.decisions, call.key), ConflictRow(codec, call, result))
      case verdict =>
        && FindDecision(v.decisions, call.key).None? && verdict == JudgeFresh(v, call)
        && (verdict.Reject? ==> IsFirstRefusal(verdict.result))
  {
    hide AuthorityHolds, RowCorrupt, JudgeFresh, FindDecision, FindConflict, Sequenced, Owned, Of;
    if Known(db, call.request.sessionId) { FreshVerdicts(ViewOf(db, call.request.sessionId), call); }
  }

  lemma RejectionRows(codec: Codec, db: Tables, call: TransitionCall, result: TransitionResult, supply: Supply)
    returns (event: StoredEvent)
    requires Known(db, call.request.sessionId) && RecordRejection(codec, db, call, result, supply).Some?
    requires ChainValid(codec.hashing, ViewOf(db, call.request.sessionId).audit)
    ensures
      var session := call.request.sessionId;
      var v := ViewOf(db, session);
      && RecordRejection(codec, db, call, result, supply).value
         == db.(decisions := db.decisions + [Row(session, RejectionRow(codec, call, result))],
                audit := db.audit + [Row(session, event)])
      && Follows(codec, v, event, v.task.stateVersion, RejectedDecision(codec, v, call))
  {
    var session := call.request.sessionId;
    var v := ViewOf(db, session);
    event := AuditEffect(
      codec, db.(decisions := db.decisions + [Row(session, RejectionRow(codec, call, result))]), session,
      supply.decisionEventId, supply.now, v.task.stateVersion, RejectedDecision(codec, v, call));
  }

  lemma DecisionUpdates(db: Tables, after: Tables, session: string, row: Decision, event: StoredEvent)
    requires Known(db, session)
    requires after == db.(decisions := db.decisions + [Row(session, row)], audit := db.audit + [Row(session, event)])
    ensures Updates(db, after, session, WithDecision(ViewOf(db, session), row, event))
  {
    OfAppend(db.decisions, Row(session, row));
    OfAppend(db.audit, Row(session, event));
  }

  lemma DecisionStoreStep(
    codec: Codec, db: Tables, after: Tables, session: string, row: Decision, event: StoredEvent, stateVersion: int,
    payload: AuditPayload)
    requires StoreInv(codec, db) && Known(db, session)
    requires after == db.(decisions := db.decisions + [Row(session, row)], audit := db.audit + [Row(session, event)])
    requires FindDecision(ViewOf(db, session).decisions, row.key).None? && !row.applied && IsFirstRefusal(row.result)
    requires Follows(codec, ViewOf(db, session), event, stateVersion, payload) && payload.GuardDecisionMade?
    requires AnswerOf(payload) == Answer(row.key, row.requestSha256, false)
    ensures StoreInv(codec, after) && StoreGrows(db, after)
  {
    hide Sequenced, Owned, Updates, SessionInv;
    var v := ViewOf(db, session);
    OneSession(codec, db, session);
    DecisionUpdates(db, after, session, row, event);
    DecisionKeeps(codec, session, v, row, event, stateVersion, payload);
    PlainAppend(db, after, session, [Row(session, row)], [], event);
    StoreKeeps(codec, db, after, session, WithDecision(v, row, event));
  }

  lemma LedgerOf(codec: Codec, session: string, v: View)
    requires SessionInv(codec, session, v)
    ensures ChainValid(codec.hashing, v.audit)
    ensures v.task.stateVersion == |v.transitions|
  {
  }

  lemma RejectionStep(codec: Codec, db: Tables, call: TransitionCall, result: TransitionResult, supply: Supply)
    requires StoreInv(codec, db) && Known(db, call.request.sessionId)
    requires FindDecision(ViewOf(db, call.request.sessionId).decisions, call.key).None? && IsFirstRefusal(result)
    requires RecordRejection(codec, db, call, result, supply).Some?
    ensures StoreInv(codec, RecordRejection(codec, db, call, result, supply).value)
    ensures StoreGrows(db, RecordRejection(codec, db, call, result, supply).value)
  {
    hide SessionInv, RecordRejection;
    var session := call.request.sessionId;
    var v := ViewOf(db, session);
    OneSession(codec, db, session);
    LedgerOf(codec, session, v);
    var event := RejectionRows(codec, db, call, result, supply);
    DecisionStoreStep(
      codec, db, RecordRejection(codec, db, call, result, supply).value, session, RejectionRow(codec, call, result),
      event, v.task.stateVersion, RejectedDecision(codec, v, call));
  }

  lemma ConflictRows(codec: Codec, db: Tables, call: TransitionCall, result: TransitionResult, supply: Supply)
    returns (event: StoredEvent)
    requires Known(db, call.request.sessionId) && RecordConflictRow(codec, db, call, result, supply).Some?
    requires ChainValid(codec.hashing, ViewOf(db, call.request.sessionId).audit)
    ensures
      var session := call.request.sessionId;
      var v := ViewOf(db, session);
      && RecordConflictRow(codec, db, call, result, supply).value
         == db.(conflicts := db.conflicts + [Row(session, ConflictRow(codec, call, result))],
                audit := db.audit + [Row(session, event)])
      && Follows(codec, v, event, v.task.stateVersion, RejectedDecision(codec, v, call))
  {
    var session := call.request.sessionId;
    var v := ViewOf(db, session);
    event := AuditEffect(
      codec, db.(conflicts := db.conflicts + [Row(session, ConflictRow(codec, call, result))]), session,
      supply.decisionEventId, supply.now, v.task.stateVersion, RejectedDecision(codec, v, call));
  }

  lemma ConflictUpdates(db: Tables, after: Tables, session: string, row: Conflict, event: StoredEvent)
    requires Known(db, session)
    requires after == db.(conflicts := db.conflicts + [Row(session, row)], audit := db.audit + [Row(session, event)])
    ensures Updates(db, after, session, WithConflict(ViewOf(db, session), row, event))
  {
    OfAppend(db.conflicts, Row(session, row));
    OfAppend(db.audit, Row(session, event));
  }

  lemma ConflictStep(codec: Codec, db: Tables, call: TransitionCall, result: TransitionResult, supply: Supply)
    requires StoreInv(codec, db) && Known(db, call.request.sessionId)
    requires
      var v := ViewOf(db, call.request.sessionId);
      && FindDecision(v.decisions, call.key).Some?
      && FindConflict(v.conflicts, call.key, RequestSha256(codec, call), RequestJson(codec, call)).None?
      && NamesOwner(FindDecision(v.decisions, call.key), ConflictRow(codec, call, result))
    requires RecordConflictRow(codec, db, call, result, supply).Some?
    ensures StoreInv(codec, RecordConflictRow(codec, db, call, result, supply).value)
    ensures StoreGrows(db, RecordConflictRow(codec, db, call, result, supply).value)
  {
    hide Sequenced, Owned, Updates, SessionInv, RecordConflictRow;
    var session := call.request.sessionId;
    var v, row := ViewOf(db, session), ConflictRow(codec, call, result);
    OneSession(codec, db, session);
    LedgerOf(codec, session, v);
    var event := ConflictRows(codec, db, call, result, supply);
    var after := RecordConflictRow(codec, db, call, result, supply).value;
    ConflictUpdates(db, after, session, row, event);
    ConflictKeeps(codec, session, v, row, event, v.task.stateVersion, RejectedDecision(codec, v, call));
    PlainAppend(db, after, session, [], [Row(session, row)], event);
    StoreKeeps(codec, db, after, session, WithConflict(v, row, event));
  }

  // ----- evidence

  lemma GateRows(codec: Codec, db: Tables, session: string, receipt: GateReceipt, eventId: string, now: int)
    returns (event: StoredEvent)
    requires InsertGate(codec, db, session, receipt, eventId, now).Some?
    requires ChainValid(codec.hashing, Of(db.audit, session))
    ensures
      var row := receipt.(sequence := NextSequence(db.gates, GateSequence));
      InsertGate(codec, db, session, receipt, eventId, now).value
      == db.(gates := db.gates + [Row(session, row)], audit := db.audit + [Row(session, event)])
    ensures ChainValid(codec.hashing, Of(db.audit, session) + [event])
    ensures event.value.payload == ProofReceiptRecorded(receipt.id, receipt.gateId)
    ensures event.value.stateVersion == receipt.stateVersion && IsSafeInteger(receipt.stateVersion)
  {
    var row := receipt.(sequence := NextSequence(db.gates, GateSequence));
    event := AuditEffect(
      codec, db.(gates := db.gates + [Row(session, row)]), session, eventId, now, receipt.stateVersion,
      ProofReceiptRecorded(receipt.id, receipt.gateId));
  }

  /** The next AUTOINCREMENT value exceeds every value in the table, hence every value of one session. */
  lemma NextSequenceIsNew<T>(rows: seq<Row<T>>, session: string, sequence: T -> int)
    requires Sequenced(rows, sequence)
    ensures 0 < NextSequence(rows, sequence)
    ensures forall body :: body in Of(rows, session) ==> sequence(body) < NextSequence(rows, sequence)
    ensures forall i :: 0 <= i < |rows| ==> sequence(rows[i].body) < NextSequence(rows, sequence)
  {
    forall body | body in Of(rows, session) ensures sequence(body) < NextSequence(rows, sequence) {
      OfMember(rows, session, body);
      var i :| 0 <= i < |rows| && rows[i] == Row(session, body);
    }
  }

  lemma GateUpdates(db: Tables, after: Tables, session: string, row: GateReceipt, event: StoredEvent)
    requires Known(db, session)
    requires after == db.(gates := db.gates + [Row(session, row)], audit := db.audit + [Row(session, event)])
    ensures Updates(db, after, session, WithGate(ViewOf(db, session), row, event))
  {
    OfAppend(db.gates, Row(session, row));
    OfAppend(db.audit, Row(session, event));
  }

  lemma GateTables(db: Tables, after: Tables, session: string, row: GateReceipt, event: StoredEvent)
    requires TablesInv(db) && ProjectionCurrent(db) && session in db.sessions
    requires row.sequence == NextSequence(db.gates, GateSequence)
    requires after == db.(gates := db.gates + [Row(session, row)], audit := db.audit + [Row(session, event)])
    ensures TablesInv(after) && ProjectionCurrent(after)
  {
    hide Sequenced;
    SequencedAppend(db.gates, Row(session, row), GateSequence);
    SameOpenSessions(db, after);
  }

  lemma SequencedAppend<T>(rows: seq<Row<T>>, row: Row<T>, sequence: T -> int)
    requires Sequenced(rows, sequence) && sequence(row.body) == NextSequence(rows, sequence)
    ensures Sequenced(rows + [row], sequence)
  {
    NextSequenceIsNew(rows, row.sessionId, sequence);
  }

  lemma SameOpenSessions(db: Tables, after: Tables)
    requires after.sessions == db.sessions && after.tasks == db.tasks
    ensures OpenSessions(after) == OpenSessions(db)
  {
  }

  lemma GateStep(codec: Codec, db: Tables, session: string, receipt: GateReceipt, eventId: string, now: int)
    requires StoreInv(codec, db)
    requires AppendContext(codec, db, session, receipt.planSha256, receipt.stateVersion, {Verifying}).None?
    requires InsertGate(codec, db, session, receipt, eventId, now).Some?
    ensures StoreInv(codec, InsertGate(codec, db, session, receipt, eventId, now).value)
    ensures StoreGrows(db, InsertGate(codec, db, session, receipt, eventId, now).value)
  {
    hide Sequenced, Owned, Updates, SessionInv, InsertGate, AuthorityHolds;
    var v := ViewOf(db, session);
    var row := receipt.(sequence := NextSequence(db.gates, GateSequence));
    OneSession(codec, db, session);
    LedgerOf(codec, session, v);
    var event := GateRows(codec, db, session, receipt, eventId, now);
    var after := InsertGate(codec, db, session, receipt, eventId, now).value;
    NextSequenceIsNew(db.gates, session, GateSequence);
    GateUpdates(db, after, session, row, event);
    GateTables(db, after, session, row, event);
    GateKeeps(codec, session, v, row, event, ProofReceiptRecorded(receipt.id, receipt.gateId));
    StoreKeeps(codec, db, after, session, WithGate(v, row, event));
  }

  lemma SignedGateRows(codec: Codec, db: Tables, session: string, receipt: SignedGateReceipt, eventId: string, now: int)
    returns (event: StoredEvent)
    requires InsertSignedGate(codec, db, session, receipt, eventId, now).Some?
    requires ChainValid(codec.hashing, Of(db.audit, session))
    ensures
      var row := receipt.(sequence := NextSequence(db.signedGates, SignedGateSequence));
      InsertSignedGate(codec, db, session, receipt, eventId, now).value
      == db.(signedGates := db.signedGates + [Row(session, row)], audit := db.audit + [Row(session, event)])
    ensures ChainValid(codec.hashing, Of(db.audit, session) + [event])
    ensures event.value.payload == SignedProofReceiptImported(receipt.id, receipt.gateId, receipt.packageSha256)
    ensures event.value.stateVersion == receipt.stateVersion && IsSafeInteger(receipt.stateVersion)
  {
    var row := receipt.(sequence := NextSequence(db.signedGates, SignedGateSequence));
    event := AuditEffect(
      codec, db.(signedGates := db.signedGates + [Row(session, row)]), session, eventId, now, receipt.stateVersion,
      SignedProofReceiptImported(receipt.id, receipt.gateId, receipt.packageSha256));
  }

  lemma SignedGateUpdates(db: Tables, after: Tables, session: string, row: SignedGateReceipt, event: StoredEvent)
    requires Known(db, session)
    requires after
             == db.(signedGates := db.signedGates + [Row(session, row)], audit := db.audit + [Row(session, event)])
    ensures Updates(db, after, session, WithSignedGate(ViewOf(db, session), row, event))
  {
    OfAppend(db.signedGates, Row(session, row));
    OfAppend(db.audit, Row(session, event));
  }

  lemma SignedGateTables(db: Tables, after: Tables, session: string, row: SignedGateReceipt, event: StoredEvent)
    requires TablesInv(db) && ProjectionCurrent(db) && session in db.sessions
    requires row.sequence == NextSequence(db.signedGates, SignedGateSequence)
    requires after
             == db.(signedGates := db.signedGates + [Row(session, row)], audit := db.audit + [Row(session, event)])
    ensures TablesInv(after) && ProjectionCurrent(after)
  {
    hide Sequenced;
    SequencedAppend(db.signedGates, Row(session, row), SignedGateSequence);
    SameOpenSessions(db, after);
  }

  lemma SignedGateStep(codec: Codec, db: Tables, session: string, receipt: SignedGateReceipt, eventId: string, now: int)
    requires StoreInv(codec, db)
    requires AppendContext(codec, db, session, receipt.planSha256, receipt.stateVersion, {Verifying}).None?
    requires InsertSignedGate(codec, db, session, receipt, eventId, now).Some?
    ensures StoreInv(codec, InsertSignedGate(codec, db, session, receipt, eventId, now).value)
    ensures StoreGrows(db, InsertSignedGate(codec, db, session, receipt, eventId, now).value)
  {
    hide Sequenced, Owned, Updates, SessionInv, InsertSignedGate, AuthorityHolds;
    var v := ViewOf(db, session);
    var row := receipt.(sequence := NextSequence(db.signedGates, SignedGateSequence));
    OneSession(codec, db, session);
    LedgerOf(codec, session, v);
    var event := SignedGateRows(codec, db, session, receipt, eventId, now);
    var after := InsertSignedGate(codec, db, session, receipt, eventId, now).value;
    NextSequenceIsNew(db.signedGates, session, SignedGateSequence);
    SignedGateUpdates(db, after, session, row, event);
    SignedGateTables(db, after, session, row, event);
    SignedGateKeeps(
      codec, session, v, row, event, SignedProofReceiptImported(receipt.id, receipt.gateId, receipt.packageSha256));
    StoreKeeps(codec, db, after, session, WithSignedGate(v, row, event));
  }

  lemma ReviewRows(codec: Codec, db: Tables, session: string, receipt: ReviewReceipt, eventId: string, now: int)
    returns (event: StoredEvent)
    requires InsertReview(codec, db, session, receipt, eventId, now).Some?
    requires ChainValid(codec.hashing, Of(db.audit, session))
    ensures
      var row := receipt.(sequence := NextSequence(db.reviews, ReviewSequence));
      InsertReview(codec, db, session, receipt, eventId, now).value
      == db.(reviews := db.reviews + [Row(session, row)], audit := db.audit + [Row(session, event)])
    ensures ChainValid(codec.hashing, Of(db.audit, session) + [event])
    ensures event.value.payload
            == SignedReviewReceiptImported(receipt.id, receipt.packageSha256, receipt.pullRequestNumber)
    ensures event.value.stateVersion == receipt.stateVersion && IsSafeInteger(receipt.stateVersion)
  {
    var row := receipt.(sequence := NextSequence(db.reviews, ReviewSequence));
    event := AuditEffect(
      codec, db.(reviews := db.reviews + [Row(session, row)]), session, eventId, now, receipt.stateVersion,
      SignedReviewReceiptImported(receipt.id, receipt.packageSha256, receipt.pullRequestNumber));
  }

  lemma ReviewUpdates(db: Tables, after: Tables, session: string, row: ReviewReceipt, event: StoredEvent)
    requires Known(db, session)
    requires after == db.(reviews := db.reviews + [Row(session, row)], audit := db.audit + [Row(session, event)])
    ensures Updates(db, after, session, WithReview(ViewOf(db, session), row, event))
  {
    OfAppend(db.reviews, Row(session, row));
    OfAppend(db.audit, Row(session, event));
  }

  lemma ReviewTables(db: Tables, after: Tables, session: string, row: ReviewReceipt, event: StoredEvent)
    requires TablesInv(db) && ProjectionCurrent(db) && session in db.sessions
    requires row.sequence == NextSequence(db.reviews, ReviewSequence)
    requires after == db.(reviews := db.reviews + [Row(session, row)], audit := db.audit + [Row(session, event)])
    ensures TablesInv(after) && ProjectionCurrent(after)
  {
    hide Sequenced;
    SequencedAppend(db.reviews, Row(session, row), ReviewSequence);
    SameOpenSessions(db, after);
  }

  lemma ReviewStep(codec: Codec, db: Tables, session: string, receipt: ReviewReceipt, eventId: string, now: int)
    requires StoreInv(codec, db) && ReviewAdvances(Of(db.reviews, session), receipt)
    requires AppendContext(
               codec, db, session, receipt.planSha256, receipt.stateVersion, {Reviewing, ReadyForHuman}).None?
    requires InsertReview(codec, db, session, receipt, eventId, now).Some?
    ensures StoreInv(codec, InsertReview(codec, db, session, receipt, eventId, now).value)
    ensures StoreGrows(db, InsertReview(codec, db, session, receipt, eventId, now).value)
  {
    hide Sequenced, Owned, Updates, SessionInv, InsertReview, AuthorityHolds;
    var v := ViewOf(db, session);
    var row := receipt.(sequence := NextSequence(db.reviews, ReviewSequence));
    OneSession(codec, db, session);
    LedgerOf(codec, session, v);
    var event := ReviewRows(codec, db, session, receipt, eventId, now);
    var after := InsertReview(codec, db, session, receipt, eventId, now).value;
    NextSequenceIsNew(db.reviews, session, ReviewSequence);
    ReviewUpdates(db, after, session, row, event);
    ReviewTables(db, after, session, row, event);
    ReviewKeeps(
      codec, session, v, row, event,
      SignedReviewReceiptImported(receipt.id, receipt.packageSha256, receipt.pullRequestNumber));
    StoreKeeps(codec, db, after, session, WithReview(v, row, event));
  }

  // ----- an admitted transition

  /** An admission that commits inserted its rows, then two ledger events. */
  lemma AdmissionInserts(codec: Codec, db: Tables, call: TransitionCall, supply: Supply)
    requires Known(db, call.request.sessionId) && RecordAdmission(codec, db, call, supply).Some?
    ensures
      var session := call.request.sessionId;
      var v := ViewOf(db, session);
      var decided := InsertAudit(
                       codec, AdmittedRows(codec, db, call, supply), session, supply.decisionEventId, supply.now,
                       v.task.stateVersion,
                       GuardDecisionMade(
                         call.key, RequestSha256(codec, call), v.task.status, call.request.target, true));
      && decided.Some?
      && RecordAdmission(codec, db, call, supply)
         == InsertAudit(
              codec, decided.value, session, supply.appliedEventId, supply.now, v.task.stateVersion + 1,
              AppliedEvent(codec, v, call, supply))
  {
    hide InsertAudit, AdmittedRows, AppliedEvent, ViewOf, TransitionCollides;
  }

  lemma AdmissionRows(codec: Codec, db: Tables, call: TransitionCall, supply: Supply)
    returns (decided: StoredEvent, applied: StoredEvent)
    requires Known(db, call.request.sessionId) && RecordAdmission(codec, db, call, supply).Some?
    requires ChainValid(codec.hashing, ViewOf(db, call.request.sessionId).audit)
    ensures
      var session := call.request.sessionId;
      var v := ViewOf(db, session);
      && RecordAdmission(codec, db, call, supply).value
         == AdmittedRows(codec, db, call, supply).(
              audit := db.audit + [Row(session, decided)] + [Row(session, applied)])
      && ChainValid(codec.hashing, v.audit + [decided, applied])
      && decided.value.payload
         == GuardDecisionMade(call.key, RequestSha256(codec, call), v.task.status, call.request.target, true)
      && applied.value.payload == AppliedEvent(codec, v, call, supply)
      && applied.value.stateVersion == v.task.stateVersion + 1
      && IsSafeInteger(v.task.stateVersion + 1)
  {
    hide AdmittedRows, InsertAudit, AppliedEvent, ChainValid, OrderBy, RowInPlace;
    AdmittedFields(codec, db, call, supply);
    AdmissionInserts(codec, db, call, supply);
    var session := call.request.sessionId;
    var v := ViewOf(db, session);
    var rows := AdmittedRows(codec, db, call, supply);
    var payload :=
      GuardDecisionMade(call.key, RequestSha256(codec, call), v.task.status, call.request.target, true);
    decided := AuditEffect(codec, rows, session, supply.decisionEventId, supply.now, v.task.stateVersion, payload);
    var next := InsertAudit(
      codec, rows, session, supply.decisionEventId, supply.now, v.task.stateVersion, payload).value;
    assert next == rows.(audit := db.audit + [Row(session, decided)]);
    applied := AuditEffect(
      codec, next, session, supply.appliedEventId, supply.now, v.task.stateVersion + 1,
      AppliedEvent(codec, v, call, supply));
    assert v.audit + [decided, applied] == (v.audit + [decided]) + [applied];
  }

  lemma NoCollision(db: Tables, session: string, row: Transition)
    requires !TransitionCollides(db, row)
    ensures forall i :: 0 <= i < |Of(db.transitions, session)| ==> Of(db.transitions, session)[i].id != row.id
  {
    var own := Of(db.transitions, session);
    forall i | 0 <= i < |own| ensures own[i].id != row.id {
      OfMember(db.transitions, session, own[i]);
    }
  }

  /** Which rows an admission touches. */
  lemma AdmittedFields(codec: Codec, db: Tables, call: TransitionCall, supply: Supply)
    requires Known(db, call.request.sessionId)
    ensures
      var session := call.request.sessionId;
      var v, rows := ViewOf(db, session), AdmittedRows(codec, db, call, supply);
      && rows.tasks == db.tasks[v.taskId := AppliedTask(v, call)]
      && rows.sessions
         == db.sessions[session := SessionRow(
                          v.taskId, if call.request.target == Completed then Some(supply.now) else v.endedAt)]
      && rows.plans == (if call.boundPlan.Some? then db.plans[session := call.boundPlan.value] else db.plans)
      && rows.transitions == db.transitions + [Row(session, AppliedRow(codec, v, call, supply))]
      && rows.decisions == db.decisions + [Row(session, AppliedDecision(codec, v, call, supply))]
      && rows.conflicts == db.conflicts && rows.audit == db.audit
      && rows.gates == db.gates && rows.signedGates == db.signedGates && rows.reviews == db.reviews
  {
  }

  lemma AdmissionUpdates(
    codec: Codec, db: Tables, after: Tables, call: TransitionCall, supply: Supply,
    decided: StoredEvent, applied: StoredEvent)
    requires TablesInv(db) && Known(db, call.request.sessionId)
    requires after == AdmittedRows(codec, db, call, supply).(
                        audit := db.audit + [Row(call.request.sessionId, decided)]
                                 + [Row(call.request.sessionId, applied)])
    ensures Updates(
              db, after, call.request.sessionId,
              WithAdmission(codec, ViewOf(db, call.request.sessionId), call, supply, decided, applied))
  {
    hide AdmittedRows, Sequenced, Owned, AppliedRow, AppliedDecision, AppliedTask, Of;
    AdmittedFields(codec, db, call, supply);
    var session := call.request.sessionId;
    var v := ViewOf(db, session);
    OfAppend(db.transitions, Row(session, AppliedRow(codec, v, call, supply)));
    OfAppend(db.decisions, Row(session, AppliedDecision(codec, v, call, supply)));
    OfAppend(db.audit, Row(session, decided));
    OfAppend(db.audit + [Row(session, decided)], Row(session, applied));
    var w := WithAdmission(codec, v, call, supply, decided, applied);
    assert Of(after.audit, session) == w.audit;
    assert ViewOf(after, session) == w;
  }

  lemma AdmissionTables(
    codec: Codec, db: Tables, after: Tables, call: TransitionCall, supply: Supply,
    decided: StoredEvent, applied: StoredEvent)
    requires TablesInv(db) && Known(db, call.request.sessionId)
    requires after == AdmittedRows(codec, db, call, supply).(
                        audit := db.audit + [Row(call.request.sessionId, decided)]
                                 + [Row(call.request.sessionId, applied)])
    ensures TablesInv(after)
  {
    hide AdmittedRows, Sequenced, Owned, AppliedRow, AppliedDecision, AppliedTask;
    AdmittedFields(codec, db, call, supply);
    var session := call.request.sessionId;
    var v := ViewOf(db, session);
    assert after.sessions.Keys == db.sessions.Keys;
    assert forall s :: s in db.sessions ==> after.sessions[s].taskId == db.sessions[s].taskId;
    OwnedStill(db.transitions, [Row(session, AppliedRow(codec, v, call, supply))], db.sessions, after.sessions);
    OwnedStill(db.decisions, [Row(session, AppliedDecision(codec, v, call, supply))], db.sessions, after.sessions);
    OwnedStill(db.audit, [Row(session, decided)], db.sessions, after.sessions);
    OwnedStill(db.audit + [Row(session, decided)], [Row(session, applied)], db.sessions, after.sessions);
    OwnedStill(db.conflicts, [], db.sessions, after.sessions);
    OwnedStill(db.gates, [], db.sessions, after.sessions);
    OwnedStill(db.signedGates, [], db.sessions, after.sessions);
    OwnedStill(db.reviews, [], db.sessions, after.sessions);
  }

  /** Rows of known sessions may be added, and the columns of the sessions table may change. */
  lemma OwnedStill<T>(
    rows: seq<Row<T>>, more: seq<Row<T>>, sessions: map<string, SessionRow>, after: map<string, SessionRow>)
    requires (Owned(rows, sessions) || Owned(rows, after)) && after.Keys == sessions.Keys
    requires forall i :: 0 <= i < |more| ==> more[i].sessionId in sessions
    ensures Owned(rows + more, after)
    ensures more == [] ==> Owned(rows, after)
  {
  }

  lemma AdmissionProjection(
    codec: Codec, db: Tables, after: Tables, call: TransitionCall, supply: Supply,
    decided: StoredEvent, applied: StoredEvent)
    requires TablesInv(db) && ProjectionCurrent(db) && Known(db, call.request.sessionId)
    requires ViewOf(db, call.request.sessionId).task.status != Completed
    requires after == AdmittedRows(codec, db, call, supply).(
                        audit := db.audit + [Row(call.request.sessionId, decided)]
                                 + [Row(call.request.sessionId, applied)])
    ensures ProjectionCurrent(after)
  {
    hide Sequenced, Owned, SoleSession;
    if call.request.target == Completed {
      assert OpenSessions(after) == after.activeSessions;
    } else {
      assert OpenSessions(after) == OpenSessions(db);
    }
  }

  lemma AdmitIsAdmissible(codec: Codec, db: Tables, call: TransitionCall, supply: Supply)
    requires Known(db, call.request.sessionId) && RecordAdmission(codec, db, call, supply).Some?
    requires FindDecision(ViewOf(db, call.request.sessionId).decisions, call.key).None?
    requires JudgeFresh(ViewOf(db, call.request.sessionId), call).Admit?
    ensures Admissible(codec, call.request.sessionId, ViewOf(db, call.request.sessionId), call)
    ensures !TransitionCollides(db, AppliedRow(codec, ViewOf(db, call.request.sessionId), call, supply))
    ensures ViewOf(db, call.request.sessionId).task.status != Completed
  {
  }

  lemma AdmissionGrows(
    codec: Codec, session: string, v: View, call: TransitionCall, supply: Supply,
    decided: StoredEvent, applied: StoredEvent)
    requires Admissible(codec, session, v, call)
    ensures Grows(v, WithAdmission(codec, v, call, supply, decided, applied))
  {
  }

  lemma AdmissionStep(codec: Codec, db: Tables, call: TransitionCall, supply: Supply)
    requires Lawful(codec) && StoreInv(codec, db) && Known(db, call.request.sessionId)
    requires FindDecision(ViewOf(db, call.request.sessionId).decisions, call.key).None?
    requires JudgeFresh(ViewOf(db, call.request.sessionId), call).Admit?
    requires RecordAdmission(codec, db, call, supply).Some?
    ensures StoreInv(codec, RecordAdmission(codec, db, call, supply).value)
    ensures StoreGrows(db, RecordAdmission(codec, db, call, supply).value)
  {
    hide SessionInv, RecordAdmission, JudgeFresh, Admissible, AdmittedRows, WithAdmission, TransitionCollides, Grows;
    var session := call.request.sessionId;
    var v := ViewOf(db, session);
    OneSession(codec, db, session);
    LedgerOf(codec, session, v);
    AdmitIsAdmissible(codec, db, call, supply);
    NoCollision(db, session, AppliedRow(codec, v, call, supply));
    var decided, applied := AdmissionRows(codec, db, call, supply);
    var after := RecordAdmission(codec, db, call, supply).value;
    AdmissionKeeps(codec, session, v, call, supply, decided, applied);
    AdmissionUpdates(codec, db, after, call, supply, decided, applied);
    AdmissionTables(codec, db, after, call, supply, decided, applied);
    AdmissionProjection(codec, db, after, call, supply, decided, applied);
    AdmissionGrows(codec, session, v, call, supply, decided, applied);
    StoreKeeps(codec, db, after, session, WithAdmission(codec, v, call, supply, decided, applied));
  }

  // ----- starting a session

  lemma {:induction false} NothingOwned<T>(rows: seq<Row<T>>, sessions: map<string, SessionRow>, session: string)
    requires Owned(rows, sessions) && session !in sessions
    ensures Of(rows, session) == []
  {
    if rows != [] { NothingOwned(rows[..|rows| - 1], sessions, session); }
  }

  function NewView(taskId: string, event: StoredEvent): View {
    View(taskId, TaskRow(Queued, 0, None), None, [], [], [], None, [], [], [], [event])
  }

  lemma NewViewInv(codec: Codec, session: string, taskId: string, event: StoredEvent)
    requires ChainValid(codec.hashing, [event])
    requires event.value.payload == SessionStarted(taskId, Queued) && event.value.stateVersion == 0
    ensures SessionInv(codec, session, NewView(taskId, event))
  {
    var v := NewView(taskId, event);
    NothingAnswered(v, event);
    EventsExtend([], event);
    assert [] + [event] == v.audit;
    assert LedgerInv(codec, v);
  }

  lemma StartRows(codec: Codec, db: Tables, taskId: string, session: string, eventId: string, now: int)
    returns (event: StoredEvent)
    requires TablesInv(db) && StartSession(codec, db, taskId, session, eventId, now).Some?
    ensures taskId !in db.tasks && session !in db.sessions
    ensures StartSession(codec, db, taskId, session, eventId, now).value
            == WriteActiveProjection(
                 db.(tasks := db.tasks[taskId := TaskRow(Queued, 0, None)],
                     sessions := db.sessions[session := SessionRow(taskId, None)],
                     audit := db.audit + [Row(session, event)]))
    ensures ChainValid(codec.hashing, [event])
    ensures event.value.payload == SessionStarted(taskId, Queued) && event.value.stateVersion == 0
    ensures forall t :: Of(db.audit + [Row(session, event)], t)
                        == Of(db.audit, t) + if t == session then [event] else []
  {
    NothingOwned(db.audit, db.sessions, session);
    var inserted := db.(tasks := db.tasks[taskId := TaskRow(Queued, 0, None)],
                        sessions := db.sessions[session := SessionRow(taskId, None)]);
    event := AuditEffect(codec, inserted, session, eventId, now, 0, SessionStarted(taskId, Queued));
    assert [] + [event] == [event];
  }

  lemma StartStep(codec: Codec, db: Tables, taskId: string, session: string, eventId: string, now: int)
    requires StoreInv(codec, db) && StartSession(codec, db, taskId, session, eventId, now).Some?
    ensures StoreInv(codec, StartSession(codec, db, taskId, session, eventId, now).value)
    ensures StoreGrows(db, StartSession(codec, db, taskId, session, eventId, now).value)
  {
    hide SessionInv, StartSession, Grows, Sequenced, Owned, OpenSessions, SoleSession, ProjectionCurrent, NewView;
    var event := StartRows(codec, db, taskId, session, eventId, now);
    var after := StartSession(codec, db, taskId, session, eventId, now).value;
    NewViewInv(codec, session, taskId, event);
    StartViews(db, after, taskId, session, event);
    StartTables(db, after, taskId, session, event);
    forall s | s in after.sessions ensures SessionInv(codec, s, ViewOf(after, s)) {
      if s != session { OneSession(codec, db, s); }
    }
    forall t | t in db.sessions ensures Known(after, t) && Grows(ViewOf(db, t), ViewOf(after, t)) {
      GrowsReflexive(ViewOf(db, t));
    }
  }

  ghost predicate Started(db: Tables, after: Tables, taskId: string, session: string, event: StoredEvent) {
    && taskId !in db.tasks && session !in db.sessions
    && after == WriteActiveProjection(
                  db.(tasks := db.tasks[taskId := TaskRow(Queued, 0, None)],
                      sessions := db.sessions[session := SessionRow(taskId, None)],
                      audit := db.audit + [Row(session, event)]))
  }

  lemma StartViews(db: Tables, after: Tables, taskId: string, session: string, event: StoredEvent)
    requires TablesInv(db) && Started(db, after, taskId, session, event)
    ensures Known(after, session) && ViewOf(after, session) == NewView(taskId, event)
    ensures forall t :: t in db.sessions ==> Known(db, t) && Known(after, t) && ViewOf(after, t) == ViewOf(db, t)
  {
    hide Of, Sequenced, OpenSessions, SoleSession, Owned;
    OfAppend(db.audit, Row(session, event));
    NothingOwned(db.audit, db.sessions, session);
    NothingOwned(db.transitions, db.sessions, session);
    NothingOwned(db.decisions, db.sessions, session);
    NothingOwned(db.conflicts, db.sessions, session);
    NothingOwned(db.gates, db.sessions, session);
    NothingOwned(db.signedGates, db.sessions, session);
    NothingOwned(db.reviews, db.sessions, session);
  }

  lemma StartTables(db: Tables, after: Tables, taskId: string, session: string, event: StoredEvent)
    requires TablesInv(db) && Started(db, after, taskId, session, event)
    ensures TablesInv(after) && ProjectionCurrent(after)
  {
    hide Sequenced, SoleSession;
    assert OpenSessions(after) == after.activeSessions;
  }
}

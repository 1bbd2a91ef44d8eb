/**
 * When an admitted transition is really written: fresh identifiers, and a digest that tells the events of a ledger
 * apart, are all the write transaction still needs.
 */
module Admissions {
  import opened Options
  import opened JsonValues
  import opened SessionTransition
  import opened AuditLedger
  import opened Rows
  import opened StoreTables
  import opened SessionStore
  import opened StoreInvariant
  import opened StoreSteps
  import opened StoreRuns
  import opened ServedTraces

  /** Events at different places among the first `n` of a ledger never share a digest. */
  ghost predicate SeparatesEvents(hashing: Hashing, n: nat) {
    forall one: AuditEvent, other: AuditEvent {:trigger hashing.canonical(one), hashing.canonical(other)} ::
      1 <= one.sequence <= n && 1 <= other.sequence <= n && one.sequence != other.sequence ==>
        hashing.digest(hashing.canonical(one)) != hashing.digest(hashing.canonical(other))
  }

  /** Identifiers nobody has used yet. */
  ghost predicate FreshSupply(db: Tables, supply: Supply) {
    && (forall row :: row in db.transitions ==> row.body.id != supply.transitionId)
    && !EventIdTaken(db, supply.decisionEventId)
    && !EventIdTaken(db, supply.appliedEventId)
    && supply.decisionEventId != supply.appliedEventId
  }

  lemma Separated(hashing: Hashing, n: nat, one: AuditEvent, other: AuditEvent)
    requires SeparatesEvents(hashing, n) && 1 <= one.sequence <= n && 1 <= other.sequence <= n
    requires one.sequence != other.sequence
    ensures hashing.digest(hashing.canonical(one)) != hashing.digest(hashing.canonical(other))
  {
    assert hashing.canonical(one) == hashing.canonical(one) && hashing.canonical(other) == hashing.canonical(other);
  }

  lemma EventIsHashed(hashing: Hashing, events: seq<StoredEvent>, i: nat)
    requires ChainValid(hashing, events) && i < |events|
    ensures events[i].sha256 == hashing.digest(hashing.canonical(events[i].value))
  {
    assert Objection(hashing, events, i).None?;
  }

  lemma NextDoesNotCollide(codec: Codec, db: Tables, session: string, event: StoredEvent, n: nat)
    requires SeparatesEvents(codec.hashing, n) && ChainValid(codec.hashing, Of(db.audit, session))
    requires event.value.sequence == |Of(db.audit, session)| + 1 <= n
    requires event.sha256 == codec.hashing.digest(codec.hashing.canonical(event.value))
    ensures !EventCollides(db, session, event)
  {
    hide ChainValid, SeparatesEvents;
    var events := Of(db.audit, session);
    ChainAscends(codec.hashing, events);
    forall row | row in db.audit && row.sessionId == session
      ensures row.body.value.sequence != event.value.sequence && row.body.sha256 != event.sha256
    {
      OfMember(db.audit, session, row.body);
      var i :| 0 <= i < |events| && events[i] == row.body;
      EventIsHashed(codec.hashing, events, i);
      Separated(codec.hashing, n, row.body.value, event.value);
    }
  }

  lemma HashesAreSha256(codec: Codec, events: seq<StoredEvent>)
    requires Lawful(codec) && ChainValid(codec.hashing, events) && events != []
    ensures IsSha256(events[|events| - 1].sha256)
  {
    LastEventIsHashed(codec.hashing, events);
  }

  /** The next event of a ledger in order is accepted when its identifier is new; the chain stays in order. */
  lemma LedgerAccepts(
    codec: Codec, db: Tables, session: string, id: string, at: int, stateVersion: nat, payload: AuditPayload, n: nat)
    returns (event: StoredEvent)
    requires Lawful(codec) && SeparatesEvents(codec.hashing, n) && IsSafeInteger(n)
    requires ChainValid(codec.hashing, Of(db.audit, session)) && Of(db.audit, session) != []
    requires !EventIdTaken(db, id) && IsSafeInteger(stateVersion) && |Of(db.audit, session)| < n
    ensures InsertAudit(codec, db, session, id, at, stateVersion, payload)
            == Some(db.(audit := db.audit + [Row(session, event)]))
    ensures event.value.id == id
    ensures Of(db.audit + [Row(session, event)], session) == Of(db.audit, session) + [event]
    ensures ChainValid(codec.hashing, Of(db.audit, session) + [event])
  {
    hide IsSha256, ChainValid, Lawful, SeparatesEvents, OrderBy, EventCollides;
    var events := Of(db.audit, session);
    ChainAscends(codec.hashing, events);
    OrderByAscending(events, SequenceOf);
    LastEventIsHashed(codec.hashing, events);
    HashesAreSha256(codec, events);
    event := NextEvent(codec.hashing, Tail(events), id, session, at, stateVersion, payload).value;
    NextDoesNotCollide(codec, db, session, event, n);
    AppendKeepsChain(codec.hashing, events, id, session, at, stateVersion, payload);
    OfAppend(db.audit, Row(session, event));
  }

  /** A new transition identifier cannot collide: versions are unique within a task, and a task has one session. */
  lemma FreshRowDoesNotCollide(codec: Codec, db: Tables, session: string, row: Transition)
    requires StoreInv(codec, db) && session in db.sessions
    requires forall r :: r in db.transitions ==> r.body.id != row.id
    requires
      var v := ViewOf(db, session);
      row.taskId == v.taskId && row.toVersion == |v.transitions| + 1
    ensures !TransitionCollides(db, row)
  {
    hide SessionInv;
    forall r | r in db.transitions ensures !(r.body.taskId == row.taskId && r.body.toVersion == row.toVersion) {
      var owner := r.sessionId;
      assert owner in db.sessions;
      OneSession(codec, db, owner);
      OfMember(db.transitions, owner, r.body);
      RowBelongs(codec, owner, ViewOf(db, owner), r.body);
    }
  }

  lemma RowBelongs(codec: Codec, session: string, v: View, row: Transition)
    requires SessionInv(codec, session, v) && row in v.transitions
    ensures row.taskId == v.taskId && row.toVersion <= |v.transitions|
  {
    hide LedgerInv, Conserved, DecisionInv, EvidenceInv;
    var i :| 0 <= i < |v.transitions| && v.transitions[i] == row;
    assert RowInPlace(codec, session, v, i);
  }

  /** A completed session admits nothing, so a session that admits something has not ended. */
  lemma AdmittingSessionIsOpen(codec: Codec, session: string, v: View, call: TransitionCall)
    requires SessionInv(codec, session, v) && JudgeFresh(v, call).Admit?
    ensures v.endedAt.None? && v.task.stateVersion == |v.transitions| < |v.audit|
    ensures v.audit != [] && ChainValid(codec.hashing, v.audit)
  {
    hide DecisionInv, EvidenceInv, RowInPlace, ChainValid, EvaluateTransitionGuards, PhaseOf, ReadWatermark;
  }

  /** Two events in a row, under two new identifiers. */
  lemma LedgerAcceptsBoth(
    codec: Codec, db: Tables, session: string, supply: Supply, version: nat, decision: AuditPayload,
    applied: AuditPayload)
    requires Lawful(codec) && ChainValid(codec.hashing, Of(db.audit, session)) && version < |Of(db.audit, session)|
    requires !EventIdTaken(db, supply.decisionEventId) && !EventIdTaken(db, supply.appliedEventId)
    requires supply.decisionEventId != supply.appliedEventId
    requires
      var n := |Of(db.audit, session)| + 2;
      IsSafeInteger(n) && SeparatesEvents(codec.hashing, n)
    ensures
      var decided := InsertAudit(codec, db, session, supply.decisionEventId, supply.now, version, decision);
      && decided.Some?
      && InsertAudit(codec, decided.value, session, supply.appliedEventId, supply.now, version + 1, applied).Some?
  {
    hide Lawful, SeparatesEvents, ChainValid, InsertAudit;
    var n := |Of(db.audit, session)| + 2;
    var event := LedgerAccepts(codec, db, session, supply.decisionEventId, supply.now, version, decision, n);
    var next := db.(audit := db.audit + [Row(session, event)]);
    var _ := LedgerAccepts(codec, next, session, supply.appliedEventId, supply.now, version + 1, applied, n);
  }

  lemma RecordsAdmission(codec: Codec, db: Tables, call: TransitionCall, supply: Supply)
    requires Known(db, call.request.sessionId)
    requires call.boundPlan.Some? ==> call.request.sessionId !in db.plans
    requires
      var v := ViewOf(db, call.request.sessionId);
      && v.endedAt.None? && !TransitionCollides(db, AppliedRow(codec, v, call, supply))
      && var rows := AdmittedRows(codec, db, call, supply);
         var decided := InsertAudit(
                          codec, rows, call.request.sessionId, supply.decisionEventId, supply.now, v.task.stateVersion,
                          GuardDecisionMade(
                            call.key, RequestSha256(codec, call), v.task.status, call.request.target, true));
      && decided.Some?
      && InsertAudit(
           codec, decided.value, call.request.sessionId, supply.appliedEventId, supply.now, v.task.stateVersion + 1,
           AppliedEvent(codec, v, call, supply)).Some?
    ensures RecordAdmission(codec, db, call, supply).Some?
  {
    hide AdmittedRows, InsertAudit, AppliedEvent, AppliedRow, TransitionCollides, ViewOf;
  }

  lemma AdmittingRows(codec: Codec, db: Tables, call: TransitionCall, supply: Supply)
    requires StoreInv(codec, db) && call.request.sessionId in db.sessions && FreshSupply(db, supply)
    requires Judge(codec, db, call).Admit?
    ensures Known(db, call.request.sessionId) && ChainValid(codec.hashing, Of(db.audit, call.request.sessionId))
    ensures
      var v := ViewOf(db, call.request.sessionId);
      && v.endedAt.None? && 0 <= v.task.stateVersion < |Of(db.audit, call.request.sessionId)|
      && !TransitionCollides(db, AppliedRow(codec, v, call, supply))
  {
    hide Judge, SessionInv, ChainValid, TransitionCollides, JudgeFresh, StoreInv, TablesInv;
    var session := call.request.sessionId;
    KnownTables(codec, db);
    OneSession(codec, db, session);
    AdmitIsKnown(codec, db, call);
    AdmittingSessionIsOpen(codec, session, ViewOf(db, session), call);
    FreshRowDoesNotCollide(codec, db, session, AppliedRow(codec, ViewOf(db, session), call, supply));
  }

  /**
   * Under fresh identifiers, and while the ledger stays within the safe integers, whatever the store judges admissible
   * it also writes.
   */
  lemma AdmissionIsWritten(codec: Codec, db: Tables, call: TransitionCall, supply: Supply)
    requires Lawful(codec) && StoreInv(codec, db) && call.request.sessionId in db.sessions
    requires Judge(codec, db, call).Admit? && FreshSupply(db, supply)
    requires call.boundPlan.Some? ==> call.request.sessionId !in db.plans
    requires
      var n := |Of(db.audit, call.request.sessionId)| + 2;
      IsSafeInteger(n) && SeparatesEvents(codec.hashing, n)
    ensures Admits(codec, db, call, supply)
  {
    hide Judge, Lawful, SeparatesEvents, AdmittedRows, ChainValid, TransitionCollides, StoreInv, InsertAudit,
      AppliedEvent, AppliedRow, RecordAdmission, ViewOf, Of;
    var session := call.request.sessionId;
    AdmittingRows(codec, db, call, supply);
    var v := ViewOf(db, session);
    AdmittedFields(codec, db, call, supply);
    LedgerAcceptsBoth(
      codec, AdmittedRows(codec, db, call, supply), session, supply, v.task.stateVersion,
      GuardDecisionMade(call.key, RequestSha256(codec, call), v.task.status, call.request.target, true),
      AppliedEvent(codec, v, call, supply));
    RecordsAdmission(codec, db, call, supply);
  }
}

/** One answer per (session, idempotency key, request), whatever happens in between. */
module Idempotency {
  import opened Options
  import opened AuditLedger
  import opened Rows
  import opened StoreTables
  import opened SessionStore
  import opened StoreAnswers
  import opened StoreInvariant
  import opened StoreSteps
  import opened StoreRuns

  /** The store holds `result` as the answer to this request under this key. */
  ghost predicate Answered(codec: Codec, v: View, call: TransitionCall, result: TransitionResult) {
    var existing := FindDecision(v.decisions, call.key);
    && existing.Some?
    && JudgeRedelivery(codec, v, call, existing.value) == ReturnOnly(result)
  }

  /** A recorded answer is never displaced: decisions and conflicts are only ever appended. */
  lemma AnswersLast(codec: Codec, v: View, w: View, call: TransitionCall, result: TransitionResult)
    requires Answered(codec, v, call, result) && v.decisions <= w.decisions && v.conflicts <= w.conflicts
    ensures Answered(codec, w, call, result)
  {
    var sha256, json := RequestSha256(codec, call), RequestJson(codec, call);
    assert w.decisions == v.decisions + w.decisions[|v.decisions|..];
    assert w.conflicts == v.conflicts + w.conflicts[|v.conflicts|..];
    FindDecisionAppend(v.decisions, w.decisions[|v.decisions|..], call.key);
    FindConflictAppend(v.conflicts, w.conflicts[|v.conflicts|..], call.key, sha256, json);
  }

  /** Whatever a first delivery returns for a session that exists, it has recorded. */
  lemma FirstAnswerIsRecorded(codec: Codec, db: Tables, call: TransitionCall, supply: Supply)
    requires Lawful(codec) && StoreInv(codec, db) && call.request.sessionId in db.sessions
    requires ApplyTransition(codec, db, call, supply).1.Returned?
    ensures
      var (after, outcome) := ApplyTransition(codec, db, call, supply);
      Known(after, call.request.sessionId)
      && Answered(codec, ViewOf(after, call.request.sessionId), call, outcome.result)
  {
    hide StoreInv, SessionInv, RecordAdmission, RecordConflictRow, RecordRejection, JudgeFresh, AuthorityHolds,
      RowCorrupt, JudgeRedelivery;
    var session := call.request.sessionId;
    OneSession(codec, db, session);
    AgreesOnSession(codec, session, ViewOf(db, session));
    KnownTables(codec, db);
    var verdict := Judge(codec, db, call);
    FreshVerdicts(ViewOf(db, session), call);
    if verdict.RecordConflict? || verdict.Reject? || verdict.Admit? {
      JudgedOnView(codec, db, call);
    }
    match verdict
    case ReturnOnly(result) =>
    case RecordConflict(result) => ConflictIsAnswer(codec, db, call, result, supply);
    case Reject(result) => RejectionIsAnswer(codec, db, call, result, supply);
    case Admit => AdmissionIsAnswer(codec, db, call, supply);
    case Throws(_) =>
  }

  lemma ConflictIsAnswer(codec: Codec, db: Tables, call: TransitionCall, result: TransitionResult, supply: Supply)
    requires StoreInv(codec, db) && call.request.sessionId in db.sessions && Known(db, call.request.sessionId)
    requires Judge(codec, db, call) == RecordConflict(result)
    requires
      var v := ViewOf(db, call.request.sessionId);
      && FindDecision(v.decisions, call.key).Some?
      && FindConflict(v.conflicts, call.key, RequestSha256(codec, call), RequestJson(codec, call)).None?
    requires RecordConflictRow(codec, db, call, result, supply).Some?
    ensures
      var after := RecordConflictRow(codec, db, call, result, supply).value;
      Known(after, call.request.sessionId) && Answered(codec, ViewOf(after, call.request.sessionId), call, result)
  {
    hide StoreInv, SessionInv, RecordConflictRow, JudgeFresh, AuthorityHolds, RowCorrupt, Updates;
    var session := call.request.sessionId;
    var v, row := ViewOf(db, session), ConflictRow(codec, call, result);
    OneSession(codec, db, session);
    LedgerOf(codec, session, v);
    var event := ConflictRows(codec, db, call, result, supply);
    var after := RecordConflictRow(codec, db, call, result, supply).value;
    OfAppend(db.conflicts, Row(session, row));
    FindConflictAppend(v.conflicts, [row], call.key, RequestSha256(codec, call), RequestJson(codec, call));
  }

  lemma RejectionIsAnswer(codec: Codec, db: Tables, call: TransitionCall, result: TransitionResult, supply: Supply)
    requires StoreInv(codec, db) && call.request.sessionId in db.sessions && Known(db, call.request.sessionId)
    requires FindDecision(ViewOf(db, call.request.sessionId).decisions, call.key).None?
    requires RecordRejection(codec, db, call, result, supply).Some?
    ensures
      var after := RecordRejection(codec, db, call, result, supply).value;
      Known(after, call.request.sessionId) && Answered(codec, ViewOf(after, call.request.sessionId), call, result)
  {
    hide StoreInv, SessionInv, RecordRejection, Updates;
    var session := call.request.sessionId;
    var v, row := ViewOf(db, session), RejectionRow(codec, call, result);
    OneSession(codec, db, session);
    LedgerOf(codec, session, v);
    var event := RejectionRows(codec, db, call, result, supply);
    OfAppend(db.decisions, Row(session, row));
    FindDecisionAppend(v.decisions, [row], call.key);
  }

  lemma AdmissionIsAnswer(codec: Codec, db: Tables, call: TransitionCall, supply: Supply)
    requires StoreInv(codec, db) && call.request.sessionId in db.sessions && Known(db, call.request.sessionId)
    requires FindDecision(ViewOf(db, call.request.sessionId).decisions, call.key).None?
    requires RecordAdmission(codec, db, call, supply).Some?
    ensures
      var after := RecordAdmission(codec, db, call, supply).value;
      && Known(after, call.request.sessionId)
      && Answered(codec, ViewOf(after, call.request.sessionId), call,
                  AppliedResult(ViewOf(db, call.request.sessionId), call, supply))
  {
    hide StoreInv, SessionInv, RecordAdmission, Updates, AdmittedRows;
    var session := call.request.sessionId;
    var v := ViewOf(db, session);
    OneSession(codec, db, session);
    LedgerOf(codec, session, v);
    var decided, applied := AdmissionRows(codec, db, call, supply);
    AdmittedFields(codec, db, call, supply);
    var row := AppliedDecision(codec, v, call, supply);
    OfAppend(db.decisions, Row(session, row));
    FindDecisionAppend(v.decisions, [row], call.key);
  }

  /** Redelivering an answered request returns the recorded answer and writes nothing. */
  lemma AnsweredIsReplayed(codec: Codec, db: Tables, call: TransitionCall, supply: Supply, result: TransitionResult)
    requires StoreInv(codec, db) && call.request.sessionId in db.sessions && Known(db, call.request.sessionId)
    requires Answered(codec, ViewOf(db, call.request.sessionId), call, result)
    ensures ApplyTransition(codec, db, call, supply) == (db, Returned(result))
  {
    hide StoreInv, SessionInv, AuthorityHolds, JudgeRedelivery, RowCorrupt, JudgeFresh;
    OneSession(codec, db, call.request.sessionId);
    AgreesOnSession(codec, call.request.sessionId, ViewOf(db, call.request.sessionId));
  }

  /**
   * Once a request has been answered for an existing session, delivering the same request under the same key after
   * any further run, with whatever guards, plan or watermark the caller has by then, returns that very answer and
   * leaves the store exactly as it was. That covers applied, rejected, replayed and conflicting requests alike.
   */
  lemma RedeliveryReturnsFirstAnswer(
    codec: Codec, before: seq<Step>, call: TransitionCall, supply: Supply, later: seq<Step>, again: TransitionCall,
    supplyAgain: Supply)
    requires Lawful(codec)
    requires call.request.sessionId in After(codec, before).sessions
    requires ApplyTransition(codec, After(codec, before), call, supply).1.Returned?
    requires again.request == call.request && again.key == call.key
    ensures
      var first := ApplyTransition(codec, After(codec, before), call, supply).1;
      var now := After(codec, before + [Deliver(call, supply)] + later);
      ApplyTransition(codec, now, again, supplyAgain) == (now, first)
  {
    hide StoreInv, SessionInv, ApplyTransition, After, Answered, Grows, ViewOf;
    var session := call.request.sessionId;
    var step := Deliver(call, supply);
    var result := ApplyTransition(codec, After(codec, before), call, supply).1.result;
    ReachableInv(codec, before);
    FirstAnswerIsRecorded(codec, After(codec, before), call, supply);
    AfterStep(codec, before, step);
    OneStepGrows(codec, before, step, session);
    var steps := before + [step] + later;
    var n := |before| + 1;
    assert steps[..n] == before + [step] && steps[..|steps|] == steps;
    RunGrows(codec, steps, n, |steps|, session);
    AnswersGrow(
      codec, ViewOf(After(codec, before + [step]), session), ViewOf(After(codec, steps), session), call, again, result);
    ReachableInv(codec, steps);
    AnsweredIsReplayed(codec, After(codec, steps), again, supplyAgain, result);
  }

  lemma AnswersGrow(
    codec: Codec, v: View, w: View, call: TransitionCall, again: TransitionCall, result: TransitionResult)
    requires Grows(v, w) && Answered(codec, v, call, result)
    requires again.request == call.request && again.key == call.key
    ensures Answered(codec, w, again, result)
  {
    AnswersLast(codec, v, w, call, result);
  }

  // ----- a different request under a used key

  /** Only the conflicts and the ledger have changed. */
  predicate OnlyConflictsRecorded(db: Tables, after: Tables) {
    after == db.(conflicts := after.conflicts, audit := after.audit)
  }

  lemma ConflictRowsOnly(codec: Codec, db: Tables, call: TransitionCall, result: TransitionResult, supply: Supply)
    requires Known(db, call.request.sessionId)
    ensures RecordConflictRow(codec, db, call, result, supply).Some? ==>
              OnlyConflictsRecorded(db, RecordConflictRow(codec, db, call, result, supply).value)
  {
    hide NextEvent, EventCollides, EventIdTaken, OrderBy;
  }

  /**
   * In every run, a request other than the one that owns the key is refused by name of that owner's digest, now and
   * whenever it is delivered again, and leaves tasks, plans, transitions, decisions and evidence as they are.
   */
  lemma DifferentRequestConflicts(
    codec: Codec, steps: seq<Step>, call: TransitionCall, supply: Supply, owner: Decision)
    requires Lawful(codec) && call.request.sessionId in After(codec, steps).sessions
    requires owner in Of(After(codec, steps).decisions, call.request.sessionId) && owner.key == call.key
    requires (owner.requestSha256, owner.requestJson) != (RequestSha256(codec, call), RequestJson(codec, call))
    ensures
      var (after, outcome) := ApplyTransition(codec, After(codec, steps), call, supply);
      && OnlyConflictsRecorded(After(codec, steps), after)
      && (outcome == Returned(Refusal(IdempotencyConflict(owner.requestSha256)))
          || (outcome == Threw(WriteRejected) && after == After(codec, steps)))
  {
    hide After, StoreInv, SessionInv, AuthorityHolds, RecordConflictRow, ViewOf, RequestSha256, RequestJson, Of;
    var db, session := After(codec, steps), call.request.sessionId;
    KnownAt(codec, steps, session);
    var v := ViewOf(db, session);
    AgreesOnSession(codec, session, v);
    OwnerIsFound(codec, db, owner, call.key, session);
    ConflictIsNamed(codec, session, v, call, owner);
    if Judge(codec, db, call).RecordConflict? {
      ConflictRowsOnly(codec, db, call, Judge(codec, db, call).result, supply);
    }
  }

  lemma OwnerIsFound(codec: Codec, db: Tables, owner: Decision, key: string, session: string)
    requires Known(db, session) && SessionInv(codec, session, ViewOf(db, session))
    requires owner in Of(db.decisions, session) && owner.key == key
    ensures FindDecision(Of(db.decisions, session), key) == Some(owner)
    ensures ViewOf(db, session).decisions == Of(db.decisions, session)
  {
    var decisions := Of(db.decisions, session);
    KeysAreDistinct(codec, session, ViewOf(db, session));
    FindDecisionAppend(decisions, [], key);
    var found := FindDecision(decisions, key).value;
    var i :| 0 <= i < |decisions| && decisions[i] == owner;
    var j :| 0 <= j < |decisions| && decisions[j] == found;
  }

  lemma KeysAreDistinct(codec: Codec, session: string, v: View)
    requires SessionInv(codec, session, v)
    ensures forall i, j :: 0 <= i < j < |v.decisions| ==> v.decisions[i].key != v.decisions[j].key
    ensures AnswerInv(v)
  {
    hide HistoryInv, LedgerInv, Conserved, EvidenceInv, AnswerInv;
  }

  lemma ConflictIsNamed(codec: Codec, session: string, v: View, call: TransitionCall, owner: Decision)
    requires SessionInv(codec, session, v) && FindDecision(v.decisions, call.key) == Some(owner)
    requires (owner.requestSha256, owner.requestJson) != (RequestSha256(codec, call), RequestJson(codec, call))
    ensures
      var refusal := Refusal(IdempotencyConflict(owner.requestSha256));
      JudgeRedelivery(codec, v, call, owner) in {ReturnOnly(refusal), RecordConflict(refusal)}
  {
    hide SessionInv, FindDecision, FindConflict, RequestSha256, RequestJson;
    KeysAreDistinct(codec, session, v);
    FindConflictAppend(v.conflicts, [], call.key, RequestSha256(codec, call), RequestJson(codec, call));
  }

  // ----- what a first delivery is told

  /** An applied answer is the transition that was stored for that very request, and no two answers share one. */
  lemma AppliedAnswersAreRows(codec: Codec, steps: seq<Step>, session: string)
    requires Lawful(codec) && session in After(codec, steps).sessions
    ensures Known(After(codec, steps), session)
    ensures
      var v := ViewOf(After(codec, steps), session);
      DecisionsReport(v) && ConflictsNameOwners(v)
  {
    hide After, SessionInv, DecisionsReport, ConflictsNameOwners;
    KnownAt(codec, steps, session);
    KeysAreDistinct(codec, session, ViewOf(After(codec, steps), session));
  }

  /** The ledger says of every answer who asked, under which key, and whether it was allowed; and of every receipt. */
  lemma LedgerNamesEverything(codec: Codec, steps: seq<Step>, session: string)
    requires Lawful(codec) && session in After(codec, steps).sessions
    ensures Known(After(codec, steps), session)
    ensures
      var v := ViewOf(After(codec, steps), session);
      EvidenceNamed(v) && AnswersAreNamed(v)
  {
    hide After, SessionInv, EvidenceNamed, AnswersAreNamed;
    KnownAt(codec, steps, session);
    KeysAreDistinct(codec, session, ViewOf(After(codec, steps), session));
  }
}

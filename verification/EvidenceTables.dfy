/** How the evidence tables grow, and what importing a package again does. */
module EvidenceTables {
  import opened ProofEvidence
  import opened AuditLedger
  import opened Rows
  import opened StoreTables
  import opened SessionStore
  import opened StoreAnswers
  import opened StoreInvariant
  import opened StoreSteps
  import opened StoreRuns

  // ----- every transaction

  predicate SameEvidence(db: Tables, after: Tables) {
    after.gates == db.gates && after.signedGates == db.signedGates && after.reviews == db.reviews
  }

  lemma TransitionLeavesEvidence(codec: Codec, db: Tables, call: TransitionCall, supply: Supply)
    ensures SameEvidence(db, ApplyTransition(codec, db, call, supply).0)
  {
    hide Judge, RecordAdmission, RecordRejection, RecordConflictRow, ViewOf;
    var session := call.request.sessionId;
    if Known(db, session) {
      match Judge(codec, db, call)
      case Admit => AdmissionLeavesEvidence(codec, db, call, supply);
      case Reject(result) => RefusalLeavesEvidence(codec, db, call, result, supply);
      case RecordConflict(result) => RefusalLeavesEvidence(codec, db, call, result, supply);
      case _ =>
    } else {
      UnknownWritesNothing(codec, db, call);
    }
  }

  lemma UnknownWritesNothing(codec: Codec, db: Tables, call: TransitionCall)
    requires !Known(db, call.request.sessionId)
    ensures Judge(codec, db, call).ReturnOnly? || Judge(codec, db, call).Throws?
  {
  }

  lemma OnlyTheLedger(
    codec: Codec, db: Tables, session: string, id: string, at: int, stateVersion: int, payload: AuditPayload)
    ensures
      var after := InsertAudit(codec, db, session, id, at, stateVersion, payload);
      after.Some? ==> SameEvidence(db, after.value)
  {
    hide NextEvent, EventCollides, EventIdTaken;
  }

  lemma AdmissionLeavesEvidence(codec: Codec, db: Tables, call: TransitionCall, supply: Supply)
    requires Known(db, call.request.sessionId)
    ensures RecordAdmission(codec, db, call, supply).Some? ==>
              SameEvidence(db, RecordAdmission(codec, db, call, supply).value)
  {
    hide InsertAudit, AdmittedRows, AppliedRow, AppliedEvent, TransitionCollides, ViewOf;
    AdmittedFields(codec, db, call, supply);
    var session := call.request.sessionId;
    var v := ViewOf(db, session);
    var rows := AdmittedRows(codec, db, call, supply);
    var decision := GuardDecisionMade(call.key, RequestSha256(codec, call), v.task.status, call.request.target, true);
    OnlyTheLedger(codec, rows, session, supply.decisionEventId, supply.now, v.task.stateVersion, decision);
    var decided := InsertAudit(codec, rows, session, supply.decisionEventId, supply.now, v.task.stateVersion, decision);
    if decided.Some? {
      OnlyTheLedger(
        codec, decided.value, session, supply.appliedEventId, supply.now, v.task.stateVersion + 1,
        AppliedEvent(codec, v, call, supply));
    }
  }

  lemma RefusalLeavesEvidence(codec: Codec, db: Tables, call: TransitionCall, result: TransitionResult, supply: Supply)
    requires Known(db, call.request.sessionId)
    ensures RecordRejection(codec, db, call, result, supply).Some? ==>
              SameEvidence(db, RecordRejection(codec, db, call, result, supply).value)
    ensures RecordConflictRow(codec, db, call, result, supply).Some? ==>
              SameEvidence(db, RecordConflictRow(codec, db, call, result, supply).value)
  {
    hide NextEvent, EventCollides, EventIdTaken;
  }

  /** Each kind of append touches its own table, and adds at most one row. */
  lemma EvidenceIsAppended(codec: Codec, db: Tables, step: Step)
    requires !step.Deliver?
    ensures
      var after := Next(codec, db, step);
      && (!step.RecordGate? ==> after.gates == db.gates)
      && (!step.ImportSignedGate? ==> after.signedGates == db.signedGates)
      && (!step.ImportReview? ==> after.reviews == db.reviews)
      && db.gates <= after.gates && db.signedGates <= after.signedGates && db.reviews <= after.reviews
  {
    hide AppendContext, ReviewAdvances, NextEvent, EventCollides, EventIdTaken, OpenSessions, SoleSession,
      FindSignedGate, FindReview, NextSequence;
  }

  lemma EvidenceGrows(codec: Codec, db: Tables, step: Step)
    ensures
      var after := Next(codec, db, step);
      db.gates <= after.gates && db.signedGates <= after.signedGates && db.reviews <= after.reviews
  {
    hide ApplyTransition, Next;
    if step.Deliver? {
      NextIsApply(codec, db, step);
      TransitionLeavesEvidence(codec, db, step.call, step.supply);
    } else {
      EvidenceIsAppended(codec, db, step);
    }
  }

  /** Evidence is never taken back: over a run the tables only grow. */
  lemma {:induction false} EvidenceIsKept(codec: Codec, steps: seq<Step>, more: seq<Step>)
    ensures
      var db, after := After(codec, steps), After(codec, steps + more);
      db.gates <= after.gates && db.signedGates <= after.signedGates && db.reviews <= after.reviews
    decreases |more|
  {
    hide Next;
    if more == [] {
      assert steps + more == steps;
    } else {
      var fewer := more[..|more| - 1];
      assert steps + more == (steps + fewer) + [more[|more| - 1]];
      EvidenceIsKept(codec, steps, fewer);
      AfterStep(codec, steps + fewer, more[|more| - 1]);
      EvidenceGrows(codec, After(codec, steps + fewer), more[|more| - 1]);
    }
  }

  // ----- the same package again

  lemma {:induction false} FindSignedGateAppend(
    rows: seq<Row<SignedGateReceipt>>, more: seq<Row<SignedGateReceipt>>, session: string, receipt: SignedGateReceipt)
    ensures
      FindSignedGate(rows + more, session, receipt)
      == if FindSignedGate(rows, session, receipt).Some? then FindSignedGate(rows, session, receipt)
         else FindSignedGate(more, session, receipt)
  {
    if rows == [] {
      assert rows + more == more;
    } else {
      FindSignedGateAppend(rows[1..], more, session, receipt);
      assert (rows + more)[1..] == rows[1..] + more;
    }
  }

  lemma {:induction false} FindReviewAppend(
    rows: seq<Row<ReviewReceipt>>, more: seq<Row<ReviewReceipt>>, session: string, receipt: ReviewReceipt)
    ensures
      FindReview(rows + more, session, receipt)
      == if FindReview(rows, session, receipt).Some? then FindReview(rows, session, receipt)
         else FindReview(more, session, receipt)
  {
    if rows == [] {
      assert rows + more == more;
    } else {
      FindReviewAppend(rows[1..], more, session, receipt);
      assert (rows + more)[1..] == rows[1..] + more;
    }
  }

  /** The package is on record for the session, as row `sequence`. */
  predicate SignedGateHeld(db: Tables, session: string, receipt: SignedGateReceipt, sequence: int) {
    var row := FindSignedGate(db.signedGates, session, receipt);
    && row.Some? && row.value.sessionId == session && row.value.body.id == receipt.id
    && row.value.body.packageSha256 == receipt.packageSha256 && row.value.body.sequence == sequence
  }

  predicate ReviewHeld(db: Tables, session: string, receipt: ReviewReceipt, sequence: int) {
    var row := FindReview(db.reviews, session, receipt);
    && row.Some? && row.value.sessionId == session && row.value.body.id == receipt.id
    && row.value.body.packageSha256 == receipt.packageSha256 && row.value.body.sequence == sequence
  }

  lemma SignedGateIsHeld(
    codec: Codec, db: Tables, session: string, receipt: SignedGateReceipt, eventId: string, now: int, promoted: bool)
    requires AppendSignedGate(codec, db, session, receipt, eventId, now, promoted).1.Recorded?
    ensures
      var (after, outcome) := AppendSignedGate(codec, db, session, receipt, eventId, now, promoted);
      SignedGateHeld(after, session, receipt, outcome.sequence)
  {
    hide AppendContext, NextEvent, EventCollides, EventIdTaken, NextSequence;
    var row := receipt.(sequence := NextSequence(db.signedGates, SignedGateSequence));
    FindSignedGateAppend(db.signedGates, [Row(session, row)], session, receipt);
  }

  lemma ReviewIsHeld(
    codec: Codec, db: Tables, session: string, receipt: ReviewReceipt, eventId: string, now: int, promoted: bool)
    requires AppendReview(codec, db, session, receipt, eventId, now, promoted).1.Recorded?
    ensures
      var (after, outcome) := AppendReview(codec, db, session, receipt, eventId, now, promoted);
      ReviewHeld(after, session, receipt, outcome.sequence)
  {
    hide AppendContext, NextEvent, EventCollides, EventIdTaken, NextSequence, ReviewAdvances;
    var row := receipt.(sequence := NextSequence(db.reviews, ReviewSequence));
    FindReviewAppend(db.reviews, [Row(session, row)], session, receipt);
  }

  /**
   * Importing a package of CI proof that went in before, after any further run and whatever became of the session,
   * gives its row again and writes nothing.
   */
  lemma SignedGateReimportIsIdle(
    codec: Codec, before: seq<Step>, step: Step, later: seq<Step>, eventId: string, now: int, promoted: bool)
    requires step.ImportSignedGate?
    requires AppendSignedGate(codec, After(codec, before), step.session, step.signedGate, step.eventId, step.now,
                              step.promoted).1.Recorded?
    ensures
      var first := AppendSignedGate(codec, After(codec, before), step.session, step.signedGate, step.eventId, step.now,
                                    step.promoted).1;
      var db := After(codec, before + [step] + later);
      AppendSignedGate(codec, db, step.session, step.signedGate, eventId, now, promoted)
      == (db, Recorded(first.sequence, true))
  {
    hide After, FindSignedGate, AppendContext, InsertSignedGate, NextSequence;
    SignedGateIsHeld(codec, After(codec, before), step.session, step.signedGate, step.eventId, step.now, step.promoted);
    AfterStep(codec, before, step);
    EvidenceIsKept(codec, before + [step], later);
    var was, rows := After(codec, before + [step]).signedGates, After(codec, before + [step] + later).signedGates;
    assert rows == was + rows[|was|..];
    FindSignedGateAppend(was, rows[|was|..], step.session, step.signedGate);
  }

  /** So does importing a snapshot again, even one that newer snapshots have overtaken. */
  lemma ReviewReimportIsIdle(
    codec: Codec, before: seq<Step>, step: Step, later: seq<Step>, eventId: string, now: int, promoted: bool)
    requires step.ImportReview?
    requires AppendReview(codec, After(codec, before), step.session, step.review, step.eventId, step.now,
                          step.promoted).1.Recorded?
    ensures
      var first := AppendReview(codec, After(codec, before), step.session, step.review, step.eventId, step.now,
                                step.promoted).1;
      var db := After(codec, before + [step] + later);
      AppendReview(codec, db, step.session, step.review, eventId, now, promoted) == (db, Recorded(first.sequence, true))
  {
    hide After, FindReview, AppendContext, InsertReview, NextSequence, ReviewAdvances;
    ReviewIsHeld(codec, After(codec, before), step.session, step.review, step.eventId, step.now, step.promoted);
    AfterStep(codec, before, step);
    EvidenceIsKept(codec, before + [step], later);
    var was, rows := After(codec, before + [step]).reviews, After(codec, before + [step] + later).reviews;
    assert rows == was + rows[|was|..];
    FindReviewAppend(was, rows[|was|..], step.session, step.review);
  }

  /** Every receipt on record was produced for the session's own plan, in a state where it counts. */
  lemma EvidenceIsInItsPlace(codec: Codec, steps: seq<Step>, session: string)
    requires Lawful(codec) && session in After(codec, steps).sessions
    ensures Known(After(codec, steps), session)
    ensures
      var v := ViewOf(After(codec, steps), session);
      && EvidenceDated(v)
      && (forall r :: r in v.gates ==> v.plan.Some? && r.planSha256 == v.plan.value.sha256)
      && (forall r :: r in v.signedGates ==> v.plan.Some? && r.planSha256 == v.plan.value.sha256)
      && (forall r :: r in v.reviews ==> v.plan.Some? && r.planSha256 == v.plan.value.sha256)
  {
    hide After, ViewOf, HistoryInv, LedgerInv, DecisionInv, Conserved, EvidenceDated;
    KnownAt(codec, steps, session);
  }
}

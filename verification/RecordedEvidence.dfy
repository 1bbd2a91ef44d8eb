/** Serviced runs extended by evidence: a gate receipt, a signed package, or a review snapshot that the store takes. */
module RecordedEvidence {
  import opened Options
  import opened Lifecycle
  import opened ProofEvidence
  import opened AuditLedger
  import opened Rows
  import opened StoreTables
  import opened SessionStore
  import opened StoreInvariant
  import opened StoreSteps
  import opened StoreRuns
  import opened ServiceRuns
  import opened Admissions
  import opened Courses

  lemma FreshEvent(db: Tables) returns (eventId: string)
    ensures !EventIdTaken(db, eventId)
  {
    var supply := FreshIdentifiers(db);
    eventId := supply.decisionEventId;
  }

  lemma AppendingInTime(codec: Codec, c: Course, session: string, v: View, planSha256: string, states: set<TaskStatus>)
    requires Lawful(codec) && Stands(codec, c, session, v)
    requires v.task.status in states && v.plan.Some? && v.plan.value.sha256 == planSha256
    ensures AppendContext(codec, After(codec, c.steps), session, planSha256, v.task.stateVersion, states).None?
    ensures ChainValid(codec.hashing, Of(After(codec, c.steps).audit, session))
    ensures Of(After(codec, c.steps).audit, session) == v.audit != [] && 0 <= v.task.stateVersion < |v.audit|
  {
    hide After, StoreInv, AuthorityHolds, ViewOf, Stands, SessionInv;
    StandsIsReachable(codec, c, session, v);
    AgreesOnSession(codec, session, v);
    LedgerOf(codec, session, v);
    LedgerIsView(After(codec, c.steps), session);
    LedgerIsLonger(codec, session, v);
  }

  lemma LedgerIsLonger(codec: Codec, session: string, v: View)
    requires SessionInv(codec, session, v)
    ensures 0 <= v.task.stateVersion < |v.audit|
  {
    hide HistoryInv, LedgerInv, DecisionInv, EvidenceInv;
  }

  /** The append is a transaction of the run, and the session has the new row. */
  lemma Appended(codec: Codec, c: Course, session: string, v: View, step: Step, after: Tables, w: View)
    returns (d: Course)
    requires Stands(codec, c, session, v) && !step.Deliver?
    requires Next(codec, After(codec, c.steps), step) == after
    requires Updates(After(codec, c.steps), after, session, w) && Lawful(codec) && w.transitions == v.transitions
    ensures Stands(codec, d, session, w) && Onward(c, d) && PhaseOf(w) == PhaseOf(v)
  {
    hide After, Next, Serviced, ViewOf, PhaseOf, SessionInv, StoreInv, Lawful, Prompted;
    d := Course(c.steps + [step], c.preparations + [NO_PREPARATION]);
    AfterStep(codec, c.steps, step);
    ServicedExtend(codec, c, step, NO_PREPARATION);
    assert d.steps[..|d.steps|] == d.steps;
    assert Known(after, session);
    PreparationsAreSteps(codec, c, session, v);
    PromptedExtend(c, step, NO_PREPARATION);
    StandsIsReachable(codec, c, session, v);
    StandsIsReachable(codec, d, session, w);
    SamePhase(codec, session, v, w);
  }

  /** A name no row of the table has. */
  lemma NewName<T>(rows: seq<Row<T>>, name: T -> string) returns (chosen: string)
    ensures forall row :: row in rows ==> name(row.body) != chosen
  {
    var names := seq(|rows|, i requires 0 <= i < |rows| => name(rows[i].body));
    chosen := FreshName(names);
    forall row | row in rows ensures name(row.body) != chosen {
      var i :| 0 <= i < |rows| && rows[i] == row;
      assert names[i] == name(row.body);
    }
  }

  lemma GateIsAppended(
    codec: Codec, db: Tables, session: string, receipt: GateReceipt, eventId: string, after: Tables)
    requires AppendContext(codec, db, session, receipt.planSha256, receipt.stateVersion, {Verifying}).None?
    requires forall row :: row in db.gates ==> row.body.id != receipt.id
    requires
      var row := receipt.(sequence := NextSequence(db.gates, GateSequence));
      InsertAudit(
        codec, db.(gates := db.gates + [Row(session, row)]), session, eventId, 0, receipt.stateVersion,
        ProofReceiptRecorded(receipt.id, receipt.gateId))
      == Some(after)
    ensures Next(codec, db, RecordGate(session, receipt, eventId, 0)) == after
  {
    hide AppendContext, InsertAudit;
  }

  /**
   * While verifying, a gate that ran under the bound plan is recorded, under the next sequence and a new identifier.
   */
  lemma TakeGate(codec: Codec, c: Course, session: string, v: View, receipt: GateReceipt)
    returns (d: Course, w: View, row: GateReceipt)
    requires Stands(codec, c, session, v) && Ample(codec, v, 1) && v.task.status == Verifying
    requires v.plan.Some? && v.plan.value.sha256 == receipt.planSha256 && receipt.stateVersion == v.task.stateVersion
    ensures Stands(codec, d, session, w) && Onward(c, d)
    ensures row == receipt.(id := row.id, sequence := row.sequence)
    ensures w == v.(gates := v.gates + [row], audit := w.audit) && |w.audit| == |v.audit| + 1
    ensures PhaseOf(w) == PhaseOf(v)
    ensures forall r :: r in v.gates ==> r.sequence < row.sequence && r.id != row.id
  {
    hide After, Stands, SessionInv, AuthorityHolds, ChainValid, SeparatesEvents, Lawful, InsertAudit, AppendContext,
      Sequenced, Owned, Next, Updates, StoreInv, Of, PhaseOf;
    StandsIsReachable(codec, c, session, v);
    AppendingInTime(codec, c, session, v, receipt.planSha256, {Verifying});
    var db := After(codec, c.steps);
    var id := NewName(db.gates, (r: GateReceipt) => r.id);
    var named := receipt.(id := id);
    row := named.(sequence := NextSequence(db.gates, GateSequence));
    var eventId := FreshEvent(db);
    var event := LedgerAccepts(
      codec, db.(gates := db.gates + [Row(session, row)]), session, eventId, 0, receipt.stateVersion,
      ProofReceiptRecorded(id, receipt.gateId), |v.audit| + 1);
    var after := db.(gates := db.gates + [Row(session, row)], audit := db.audit + [Row(session, event)]);
    GateIsAppended(codec, db, session, named, eventId, after);
    GateUpdates(db, after, session, row, event);
    w := WithGate(v, row, event);
    d := Appended(codec, c, session, v, RecordGate(session, named, eventId, 0), after, w);
    TableOf(codec, db);
    NextSequenceIsNew(db.gates, session, GateSequence);
    forall r | r in v.gates ensures r.id != row.id { OfMember(db.gates, session, r); }
  }

  lemma TableOf(codec: Codec, db: Tables)
    requires StoreInv(codec, db)
    ensures Sequenced(db.gates, GateSequence) && Sequenced(db.signedGates, SignedGateSequence)
    ensures Sequenced(db.reviews, ReviewSequence)
  {
    hide Sequenced, SessionInv, Owned;
  }

  lemma {:induction false} NoSignedGate(rows: seq<Row<SignedGateReceipt>>, session: string, receipt: SignedGateReceipt)
    requires forall row :: row in rows ==>
               row.body.id != receipt.id && row.body.packageSha256 != receipt.packageSha256
    ensures FindSignedGate(rows, session, receipt).None?
  {
    if rows != [] { NoSignedGate(rows[1..], session, receipt); }
  }

  lemma SignedGateIsAppended(
    codec: Codec, db: Tables, session: string, receipt: SignedGateReceipt, eventId: string, after: Tables)
    requires AppendContext(codec, db, session, receipt.planSha256, receipt.stateVersion, {Verifying}).None?
    requires FindSignedGate(db.signedGates, session, receipt).None?
    requires
      var row := receipt.(sequence := NextSequence(db.signedGates, SignedGateSequence));
      InsertAudit(
        codec, db.(signedGates := db.signedGates + [Row(session, row)]), session, eventId, 0, receipt.stateVersion,
        SignedProofReceiptImported(receipt.id, receipt.gateId, receipt.packageSha256))
      == Some(after)
    ensures Next(codec, db, ImportSignedGate(session, receipt, eventId, 0, true)) == after
  {
    hide AppendContext, InsertAudit, FindSignedGate;
  }

  /** While verifying, a signed CI package is imported, under a new identifier and digest. */
  lemma TakeSignedGate(codec: Codec, c: Course, session: string, v: View, receipt: SignedGateReceipt)
    returns (d: Course, w: View, row: SignedGateReceipt)
    requires Stands(codec, c, session, v) && Ample(codec, v, 1) && v.task.status == Verifying
    requires v.plan.Some? && v.plan.value.sha256 == receipt.planSha256 && receipt.stateVersion == v.task.stateVersion
    ensures Stands(codec, d, session, w) && Onward(c, d)
    ensures row == receipt.(id := row.id, packageSha256 := row.packageSha256, sequence := row.sequence)
    ensures w == v.(signedGates := v.signedGates + [row], audit := w.audit) && |w.audit| == |v.audit| + 1
    ensures PhaseOf(w) == PhaseOf(v)
  {
    hide After, Stands, SessionInv, AuthorityHolds, ChainValid, SeparatesEvents, Lawful, InsertAudit, AppendContext,
      Next, Updates, StoreInv, Of, FindSignedGate, PhaseOf;
    StandsIsReachable(codec, c, session, v);
    AppendingInTime(codec, c, session, v, receipt.planSha256, {Verifying});
    var db := After(codec, c.steps);
    var id := NewName(db.signedGates, (r: SignedGateReceipt) => r.id);
    var sha256 := NewName(db.signedGates, (r: SignedGateReceipt) => r.packageSha256);
    var named := receipt.(id := id, packageSha256 := sha256);
    NoSignedGate(db.signedGates, session, named);
    row := named.(sequence := NextSequence(db.signedGates, SignedGateSequence));
    var eventId := FreshEvent(db);
    var event := LedgerAccepts(
      codec, db.(signedGates := db.signedGates + [Row(session, row)]), session, eventId, 0, receipt.stateVersion,
      SignedProofReceiptImported(id, receipt.gateId, sha256), |v.audit| + 1);
    var after := db.(signedGates := db.signedGates + [Row(session, row)], audit := db.audit + [Row(session, event)]);
    SignedGateIsAppended(codec, db, session, named, eventId, after);
    SignedGateUpdates(db, after, session, row, event);
    w := WithSignedGate(v, row, event);
    d := Appended(codec, c, session, v, ImportSignedGate(session, named, eventId, 0, true), after, w);
  }

  lemma {:induction false} NoReview(rows: seq<Row<ReviewReceipt>>, session: string, receipt: ReviewReceipt)
    requires forall row :: row in rows ==>
               row.body.id != receipt.id && row.body.packageSha256 != receipt.packageSha256
    ensures FindReview(rows, session, receipt).None?
  {
    if rows != [] { NoReview(rows[1..], session, receipt); }
  }

  lemma ReviewIsAppended(
    codec: Codec, db: Tables, session: string, receipt: ReviewReceipt, eventId: string, after: Tables)
    requires AppendContext(
               codec, db, session, receipt.planSha256, receipt.stateVersion, {Reviewing, ReadyForHuman}).None?
    requires FindReview(db.reviews, session, receipt).None? && ReviewAdvances(Of(db.reviews, session), receipt)
    requires
      var row := receipt.(sequence := NextSequence(db.reviews, ReviewSequence));
      InsertAudit(
        codec, db.(reviews := db.reviews + [Row(session, row)]), session, eventId, 0, receipt.stateVersion,
        SignedReviewReceiptImported(receipt.id, receipt.packageSha256, receipt.pullRequestNumber))
      == Some(after)
    ensures Next(codec, db, ImportReview(session, receipt, eventId, 0, true)) == after
  {
    hide AppendContext, InsertAudit, FindReview, ReviewAdvances;
  }

  /** In review, a snapshot that advances is imported, under a new identifier and digest. */
  lemma TakeReview(codec: Codec, c: Course, session: string, v: View, receipt: ReviewReceipt)
    returns (d: Course, w: View, row: ReviewReceipt)
    requires Stands(codec, c, session, v) && Ample(codec, v, 1) && v.task.status in {Reviewing, ReadyForHuman}
    requires v.plan.Some? && v.plan.value.sha256 == receipt.planSha256 && receipt.stateVersion == v.task.stateVersion
    requires ReviewAdvances(v.reviews, receipt)
    ensures Stands(codec, d, session, w) && Onward(c, d)
    ensures row == receipt.(id := row.id, packageSha256 := row.packageSha256, sequence := row.sequence)
    ensures w == v.(reviews := v.reviews + [row], audit := w.audit) && |w.audit| == |v.audit| + 1
    ensures PhaseOf(w) == PhaseOf(v)
  {
    hide After, Stands, SessionInv, AuthorityHolds, ChainValid, SeparatesEvents, Lawful, InsertAudit, AppendContext,
      Next, Updates, StoreInv, Of, FindReview, PhaseOf;
    StandsIsReachable(codec, c, session, v);
    AppendingInTime(codec, c, session, v, receipt.planSha256, {Reviewing, ReadyForHuman});
    var db := After(codec, c.steps);
    var id := NewName(db.reviews, (r: ReviewReceipt) => r.id);
    var sha256 := NewName(db.reviews, (r: ReviewReceipt) => r.packageSha256);
    var named := receipt.(id := id, packageSha256 := sha256);
    NoReview(db.reviews, session, named);
    row := named.(sequence := NextSequence(db.reviews, ReviewSequence));
    var eventId := FreshEvent(db);
    var event := LedgerAccepts(
      codec, db.(reviews := db.reviews + [Row(session, row)]), session, eventId, 0, receipt.stateVersion,
      SignedReviewReceiptImported(id, sha256, receipt.pullRequestNumber), |v.audit| + 1);
    var after := db.(reviews := db.reviews + [Row(session, row)], audit := db.audit + [Row(session, event)]);
    ReviewIsAppended(codec, db, session, named, eventId, after);
    ReviewUpdates(db, after, session, row, event);
    w := WithReview(v, row, event);
    d := Appended(codec, c, session, v, ImportReview(session, named, eventId, 0, true), after, w);
  }
}

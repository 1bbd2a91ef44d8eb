/** Exactly what the store answers to a receipt, a package of CI proof or a review snapshot, after any run. */
module EvidenceImports {
  import opened Options
  import opened Lifecycle
  import opened ProofEvidence
  import opened AuditLedger
  import opened Rows
  import opened StoreTables
  import opened SessionStore
  import opened StoreAnswers
  import opened StoreInvariant
  import opened StoreRuns
  import opened EvidenceTables

  /** The evidence was produced for the plan the session has, at the version it has, in a state where it counts. */
  ghost predicate InTime(db: Tables, session: string, planSha256: string, stateVersion: int, states: set<TaskStatus>) {
    && Known(db, session)
    && var v := ViewOf(db, session);
    && v.task.status in states && v.task.stateVersion == stateVersion
    && v.plan.Some? && v.plan.value.sha256 == planSha256
  }

  lemma ContextIsInTime(
    codec: Codec, steps: seq<Step>, session: string, planSha256: string, stateVersion: int, states: set<TaskStatus>)
    requires Lawful(codec)
    ensures
      var db := After(codec, steps);
      AppendContext(codec, db, session, planSha256, stateVersion, states)
      == if InTime(db, session, planSha256, stateVersion, states) then None else Some(AppendConflict)
  {
    hide After, ViewOf, SessionInv, AuthorityHolds;
    var db := After(codec, steps);
    if Known(db, session) {
      KnownAt(codec, steps, session);
      AgreesOnSession(codec, session, ViewOf(db, session));
    }
  }

  /** A receipt of a gate is taken exactly when it comes in time, under the next sequence. */
  lemma GateAppendIsExact(
    codec: Codec, steps: seq<Step>, session: string, receipt: GateReceipt, eventId: string, now: int)
    requires Lawful(codec)
    ensures
      var db, next := After(codec, steps), NextSequence(After(codec, steps).gates, GateSequence);
      var (after, outcome) := AppendGate(codec, db, session, receipt, eventId, now);
      if !InTime(db, session, receipt.planSha256, receipt.stateVersion, {Verifying}) then
        (after, outcome) == (db, Refused(AppendConflict))
      else
        || (after, outcome) == (db, Refused(WriteRejected))
        || (&& outcome == Recorded(next, false)
            && after == db.(gates := db.gates + [Row(session, receipt.(sequence := next))], audit := after.audit))
  {
    hide After, ViewOf, AppendContext, NextEvent, EventIdTaken, EventCollides, InTime, NextSequence;
    ContextIsInTime(codec, steps, session, receipt.planSha256, receipt.stateVersion, {Verifying});
  }

  // ----- packages

  predicate SharesName(row: Row<SignedGateReceipt>, session: string, receipt: SignedGateReceipt) {
    row.body.id == receipt.id || (row.sessionId == session && row.body.packageSha256 == receipt.packageSha256)
  }

  predicate IsPackage(row: Row<SignedGateReceipt>, session: string, receipt: SignedGateReceipt) {
    row.sessionId == session && row.body.id == receipt.id && row.body.packageSha256 == receipt.packageSha256
  }

  /** No identifier and no package of a session is stored twice. */
  ghost predicate SignedGatesOnce(rows: seq<Row<SignedGateReceipt>>) {
    forall i, j :: 0 <= i < j < |rows| ==> !SharesName(rows[i], rows[j].sessionId, rows[j].body)
  }

  lemma {:induction false} FoundFirst(rows: seq<Row<SignedGateReceipt>>, session: string, receipt: SignedGateReceipt)
    ensures
      match FindSignedGate(rows, session, receipt)
      case None => forall i :: 0 <= i < |rows| ==> !SharesName(rows[i], session, receipt)
      case Some(row) => SharesName(row, session, receipt) && exists i :: 0 <= i < |rows| && rows[i] == row
  {
    if rows != [] {
      FoundFirst(rows[1..], session, receipt);
      assert rows == [rows[0]] + rows[1..];
    }
  }

  lemma SignedGateStaysOnce(
    codec: Codec, db: Tables, session: string, receipt: SignedGateReceipt, eventId: string, now: int, promoted: bool)
    requires SignedGatesOnce(db.signedGates)
    ensures SignedGatesOnce(AppendSignedGate(codec, db, session, receipt, eventId, now, promoted).0.signedGates)
  {
    hide AppendContext, NextEvent, EventIdTaken, EventCollides, NextSequence, FindSignedGate;
    FoundFirst(db.signedGates, session, receipt);
  }

  lemma {:induction false} SignedGatesAreOnce(codec: Codec, steps: seq<Step>)
    ensures SignedGatesOnce(After(codec, steps).signedGates)
  {
    hide Next, SignedGatesOnce;
    if steps == [] {
      assert SignedGatesOnce([]) by { NothingTwice(); }
    } else {
      var before, step := steps[..|steps| - 1], steps[|steps| - 1];
      var db := After(codec, before);
      SignedGatesAreOnce(codec, before);
      if step.ImportSignedGate? {
        SignedGateStaysOnce(codec, db, step.session, step.signedGate, step.eventId, step.now, step.promoted);
        NextOfImport(codec, db, step);
      } else if step.Deliver? {
        NextIsApply(codec, db, step);
        TransitionLeavesEvidence(codec, db, step.call, step.supply);
      } else {
        EvidenceIsAppended(codec, db, step);
      }
    }
  }

  lemma NothingTwice()
    ensures SignedGatesOnce([]) && ReviewsOnce([])
  {
  }

  lemma NextOfImport(codec: Codec, db: Tables, step: Step)
    ensures step.ImportSignedGate? ==>
              Next(codec, db, step)
              == AppendSignedGate(codec, db, step.session, step.signedGate, step.eventId, step.now, step.promoted).0
    ensures step.ImportReview? ==>
              Next(codec, db, step)
              == AppendReview(codec, db, step.session, step.review, step.eventId, step.now, step.promoted).0
  {
    hide AppendSignedGate, AppendReview;
  }

  /**
   * A package of CI proof: the very one on record gives its row again; another under its name, or one that comes too
   * late or too early, conflicts; a new one in time is taken when its file could be put in place. Whatever is refused
   * leaves the store as it was.
   */
  lemma SignedGateImportIsExact(
    codec: Codec, steps: seq<Step>, session: string, receipt: SignedGateReceipt, eventId: string, now: int,
    promoted: bool)
    requires Lawful(codec)
    ensures
      var db, next := After(codec, steps), NextSequence(After(codec, steps).signedGates, SignedGateSequence);
      var (after, outcome) := AppendSignedGate(codec, db, session, receipt, eventId, now, promoted);
      && (forall row :: row in db.signedGates && IsPackage(row, session, receipt) ==>
            (after, outcome) == (db, Recorded(row.body.sequence, true)))
      && ((forall row :: row in db.signedGates ==> !IsPackage(row, session, receipt)) ==>
            if (exists row :: row in db.signedGates && SharesName(row, session, receipt))
               || !InTime(db, session, receipt.planSha256, receipt.stateVersion, {Verifying})
            then (after, outcome) == (db, Refused(AppendConflict))
            else
              || (after, outcome) == (db, Refused(WriteRejected))
              || (&& promoted && outcome == Recorded(next, false)
                  && after == db.(signedGates := db.signedGates + [Row(session, receipt.(sequence := next))],
                                  audit := after.audit)))
  {
    hide After, ViewOf, AppendContext, NextEvent, EventIdTaken, EventCollides, InTime, NextSequence, FindSignedGate;
    ContextIsInTime(codec, steps, session, receipt.planSha256, receipt.stateVersion, {Verifying});
    var db := After(codec, steps);
    SignedGatesAreOnce(codec, steps);
    FoundFirst(db.signedGates, session, receipt);
    var found := FindSignedGate(db.signedGates, session, receipt);
    forall row | row in db.signedGates && IsPackage(row, session, receipt) ensures found == Some(row) {
      var i :| 0 <= i < |db.signedGates| && db.signedGates[i] == row;
      var j :| 0 <= j < |db.signedGates| && db.signedGates[j] == found.value;
      assert i == j;
    }
  }

  // ----- snapshots

  predicate ReviewSharesName(row: Row<ReviewReceipt>, session: string, receipt: ReviewReceipt) {
    row.body.id == receipt.id || (row.sessionId == session && row.body.packageSha256 == receipt.packageSha256)
  }

  predicate IsSnapshot(row: Row<ReviewReceipt>, session: string, receipt: ReviewReceipt) {
    row.sessionId == session && row.body.id == receipt.id && row.body.packageSha256 == receipt.packageSha256
  }

  ghost predicate ReviewsOnce(rows: seq<Row<ReviewReceipt>>) {
    forall i, j :: 0 <= i < j < |rows| ==> !ReviewSharesName(rows[i], rows[j].sessionId, rows[j].body)
  }

  lemma {:induction false} ReviewFoundFirst(rows: seq<Row<ReviewReceipt>>, session: string, receipt: ReviewReceipt)
    ensures
      match FindReview(rows, session, receipt)
      case None => forall i :: 0 <= i < |rows| ==> !ReviewSharesName(rows[i], session, receipt)
      case Some(row) => ReviewSharesName(row, session, receipt) && exists i :: 0 <= i < |rows| && rows[i] == row
  {
    if rows != [] {
      ReviewFoundFirst(rows[1..], session, receipt);
      assert rows == [rows[0]] + rows[1..];
    }
  }

  lemma ReviewStaysOnce(
    codec: Codec, db: Tables, session: string, receipt: ReviewReceipt, eventId: string, now: int, promoted: bool)
    requires ReviewsOnce(db.reviews)
    ensures ReviewsOnce(AppendReview(codec, db, session, receipt, eventId, now, promoted).0.reviews)
  {
    hide AppendContext, NextEvent, EventIdTaken, EventCollides, NextSequence, FindReview, ReviewAdvances;
    ReviewFoundFirst(db.reviews, session, receipt);
  }

  lemma {:induction false} ReviewsAreOnce(codec: Codec, steps: seq<Step>)
    ensures ReviewsOnce(After(codec, steps).reviews)
  {
    hide Next, ReviewsOnce;
    if steps == [] {
      assert ReviewsOnce([]) by { NothingTwice(); }
    } else {
      var before, step := steps[..|steps| - 1], steps[|steps| - 1];
      var db := After(codec, before);
      ReviewsAreOnce(codec, before);
      if step.ImportReview? {
        ReviewStaysOnce(codec, db, step.session, step.review, step.eventId, step.now, step.promoted);
        NextOfImport(codec, db, step);
      } else if step.Deliver? {
        NextIsApply(codec, db, step);
        TransitionLeavesEvidence(codec, db, step.call, step.supply);
      } else {
        EvidenceIsAppended(codec, db, step);
      }
    }
  }

  /** It is of the pull request the session's last snapshot was of, and was observed no earlier. */
  ghost predicate Advances(db: Tables, session: string, receipt: ReviewReceipt) {
    var prior := Of(db.reviews, session);
    prior != [] ==>
      var last := prior[|prior| - 1];
      last.pullRequestNumber == receipt.pullRequestNumber && last.observedAt <= receipt.observedAt
  }

  lemma AdvancesIsExact(codec: Codec, session: string, db: Tables, receipt: ReviewReceipt)
    requires Known(db, session) && SessionInv(codec, session, ViewOf(db, session))
    ensures ReviewAdvances(Of(db.reviews, session), receipt) <==> Advances(db, session, receipt)
  {
    hide HistoryInv, LedgerInv, Conserved, DecisionInv, AnswerInv;
    var prior := Of(db.reviews, session);
    forall r | r in prior
      ensures r.pullRequestNumber == prior[|prior| - 1].pullRequestNumber
      ensures r.observedAt <= prior[|prior| - 1].observedAt
    {
      var i :| 0 <= i < |prior| && prior[i] == r;
    }
  }

  /**
   * A review snapshot: as for a package, but under review or while a person is awaited; and a new one must be of the
   * pull request of the last, observed no earlier than it.
   */
  lemma ReviewImportIsExact(
    codec: Codec, steps: seq<Step>, session: string, receipt: ReviewReceipt, eventId: string, now: int, promoted: bool)
    requires Lawful(codec)
    ensures
      var db, next := After(codec, steps), NextSequence(After(codec, steps).reviews, ReviewSequence);
      var (after, outcome) := AppendReview(codec, db, session, receipt, eventId, now, promoted);
      && (forall row :: row in db.reviews && IsSnapshot(row, session, receipt) ==>
            (after, outcome) == (db, Recorded(row.body.sequence, true)))
      && ((forall row :: row in db.reviews ==> !IsSnapshot(row, session, receipt)) ==>
            if (exists row :: row in db.reviews && ReviewSharesName(row, session, receipt))
               || !InTime(db, session, receipt.planSha256, receipt.stateVersion, {Reviewing, ReadyForHuman})
               || !Advances(db, session, receipt)
            then (after, outcome) == (db, Refused(AppendConflict))
            else
              || (after, outcome) == (db, Refused(WriteRejected))
              || (&& promoted && outcome == Recorded(next, false)
                  && after == db.(reviews := db.reviews + [Row(session, receipt.(sequence := next))],
                                  audit := after.audit)))
  {
    hide After, ViewOf, AppendContext, NextEvent, EventIdTaken, EventCollides, InTime, NextSequence, FindReview,
      ReviewAdvances, Advances, SessionInv;
    ContextIsInTime(codec, steps, session, receipt.planSha256, receipt.stateVersion, {Reviewing, ReadyForHuman});
    var db := After(codec, steps);
    ReviewsAreOnce(codec, steps);
    ReviewFoundFirst(db.reviews, session, receipt);
    var found := FindReview(db.reviews, session, receipt);
    forall row | row in db.reviews && IsSnapshot(row, session, receipt) ensures found == Some(row) {
      var i :| 0 <= i < |db.reviews| && db.reviews[i] == row;
      var j :| 0 <= j < |db.reviews| && db.reviews[j] == found.value;
      assert i == j;
    }
    if InTime(db, session, receipt.planSha256, receipt.stateVersion, {Reviewing, ReadyForHuman}) {
      InTimeIsKnown(db, session, receipt.planSha256, receipt.stateVersion, {Reviewing, ReadyForHuman});
      KnownAt(codec, steps, session);
      AdvancesIsExact(codec, session, db, receipt);
    }
  }

  lemma InTimeIsKnown(db: Tables, session: string, planSha256: string, stateVersion: int, states: set<TaskStatus>)
    requires InTime(db, session, planSha256, stateVersion, states)
    ensures session in db.sessions && Known(db, session)
  {
  }
}

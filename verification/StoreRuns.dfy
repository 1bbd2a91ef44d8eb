/** Runs of the store: any sequence of write transactions, by any number of callers, on any number of sessions. */
module StoreRuns {
  import opened Options
  import opened Lifecycle
  import opened ProofEvidence
  import opened Rows
  import opened StoreTables
  import opened SessionStore
  import opened StoreInvariant
  import opened StoreSteps

  datatype Step =
    | Start(taskId: string, session: string, eventId: string, now: int)
    | Deliver(call: TransitionCall, supply: Supply)
    | RecordGate(session: string, gate: GateReceipt, eventId: string, now: int)
    | ImportSignedGate(session: string, signedGate: SignedGateReceipt, eventId: string, now: int, promoted: bool)
    | ImportReview(session: string, review: ReviewReceipt, eventId: string, now: int, promoted: bool)

  /** The committed tables after one transaction; a transaction that throws changes nothing. */
  ghost function Next(codec: Codec, db: Tables, step: Step): Tables {
    match step
    case Start(taskId, session, eventId, now) => StartSession(codec, db, taskId, session, eventId, now).GetOr(db)
    case Deliver(call, supply) => ApplyTransition(codec, db, call, supply).0
    case RecordGate(session, gate, eventId, now) => AppendGate(codec, db, session, gate, eventId, now).0
    case ImportSignedGate(session, signedGate, eventId, now, promoted) =>
      AppendSignedGate(codec, db, session, signedGate, eventId, now, promoted).0
    case ImportReview(session, review, eventId, now, promoted) =>
      AppendReview(codec, db, session, review, eventId, now, promoted).0
  }

  /** The committed tables after a run that starts from an empty store. */
  ghost function After(codec: Codec, steps: seq<Step>): Tables {
    if steps == [] then EMPTY_TABLES else Next(codec, After(codec, steps[..|steps| - 1]), steps[|steps| - 1])
  }

  lemma AfterStep(codec: Codec, before: seq<Step>, step: Step)
    ensures After(codec, before + [step]) == Next(codec, After(codec, before), step)
  {
    assert (before + [step])[..|before|] == before;
  }

  // ----- one transaction

  lemma NextIsApply(codec: Codec, db: Tables, step: Step)
    requires step.Deliver?
    ensures Next(codec, db, step) == ApplyTransition(codec, db, step.call, step.supply).0
  {
    hide ApplyTransition;
  }

  lemma TransitionKeeps(codec: Codec, db: Tables, call: TransitionCall, supply: Supply)
    requires Lawful(codec) && StoreInv(codec, db)
    ensures StoreInv(codec, ApplyTransition(codec, db, call, supply).0)
    ensures StoreGrows(db, ApplyTransition(codec, db, call, supply).0)
  {
    hide StoreInv, StoreGrows, RecordAdmission, RecordConflictRow, RecordRejection, JudgeFresh, AuthorityHolds;
    StoreGrowsReflexive(db);
    var verdict := Judge(codec, db, call);
    if verdict.RecordConflict? || verdict.Reject? || verdict.Admit? {
      KnownTables(codec, db);
      JudgedOnView(codec, db, call);
      match verdict
      case RecordConflict(result) =>
        if RecordConflictRow(codec, db, call, result, supply).Some? { ConflictStep(codec, db, call, result, supply); }
      case Reject(result) =>
        if RecordRejection(codec, db, call, result, supply).Some? { RejectionStep(codec, db, call, result, supply); }
      case Admit =>
        if RecordAdmission(codec, db, call, supply).Some? { AdmissionStep(codec, db, call, supply); }
    }
  }

  lemma KnownTables(codec: Codec, db: Tables)
    requires StoreInv(codec, db)
    ensures TablesInv(db)
  {
  }

  lemma AppendsKeep(codec: Codec, db: Tables, step: Step)
    requires StoreInv(codec, db) && !step.Deliver?
    ensures StoreInv(codec, Next(codec, db, step)) && StoreGrows(db, Next(codec, db, step))
  {
    hide StoreInv, StoreGrows, InsertGate, InsertSignedGate, InsertReview, StartSession, AppendContext;
    StoreGrowsReflexive(db);
    match step
    case Start(taskId, session, eventId, now) =>
      if StartSession(codec, db, taskId, session, eventId, now).Some? {
        StartStep(codec, db, taskId, session, eventId, now);
      }
    case RecordGate(session, gate, eventId, now) =>
      if AppendGate(codec, db, session, gate, eventId, now).1.Recorded? {
        GateStep(codec, db, session, gate, eventId, now);
      }
    case ImportSignedGate(session, signedGate, eventId, now, promoted) =>
      var outcome := AppendSignedGate(codec, db, session, signedGate, eventId, now, promoted).1;
      if outcome.Recorded? && !outcome.alreadyImported {
        SignedGateStep(codec, db, session, signedGate, eventId, now);
      }
    case ImportReview(session, review, eventId, now, promoted) =>
      var outcome := AppendReview(codec, db, session, review, eventId, now, promoted).1;
      if outcome.Recorded? && !outcome.alreadyImported {
        ReviewStep(codec, db, session, review, eventId, now);
      }
  }

  lemma NextKeeps(codec: Codec, db: Tables, step: Step)
    requires Lawful(codec) && StoreInv(codec, db)
    ensures StoreInv(codec, Next(codec, db, step)) && StoreGrows(db, Next(codec, db, step))
  {
    hide StoreInv, StoreGrows, ApplyTransition;
    match step
    case Deliver(call, supply) => TransitionKeeps(codec, db, call, supply);
    case _ => AppendsKeep(codec, db, step);
  }

  // ----- every reachable store

  lemma EmptyStoreInv(codec: Codec)
    ensures StoreInv(codec, EMPTY_TABLES)
  {
    assert OpenSessions(EMPTY_TABLES) == {};
  }

  lemma {:induction false} ReachableInv(codec: Codec, steps: seq<Step>)
    requires Lawful(codec)
    ensures StoreInv(codec, After(codec, steps))
  {
    hide StoreInv, Next;
    if steps == [] {
      EmptyStoreInv(codec);
    } else {
      ReachableInv(codec, steps[..|steps| - 1]);
      NextKeeps(codec, After(codec, steps[..|steps| - 1]), steps[|steps| - 1]);
    }
  }

  /**
   * Writer/reader agreement. After any run, the history reader accepts every session, no lifecycle row is corrupt,
   * the stored projection is the recomputed one, and no row exists without its ledger event.
   */
  lemma WriterReaderAgreement(codec: Codec, steps: seq<Step>, session: string)
    requires Lawful(codec)
    ensures
      var db := After(codec, steps);
      && ProjectionCurrent(db)
      && (session in db.sessions ==>
            && Known(db, session)
            && AuthorityHolds(codec, session, ViewOf(db, session))
            && !RowCorrupt(ViewOf(db, session))
            && Conserved(ViewOf(db, session)))
  {
    hide SessionInv, AuthorityHolds, RowCorrupt, Conserved, Next;
    ReachableInv(codec, steps);
    var db := After(codec, steps);
    if session in db.sessions {
      OneSession(codec, db, session);
      AgreesOnSession(codec, session, ViewOf(db, session));
    }
  }

  /** The session was started, and has not completed. */
  predicate IsOpen(db: Tables, session: string, taskId: string) {
    && session in db.sessions && db.sessions[session].taskId == taskId
    && taskId in db.tasks && db.tasks[taskId].status != Completed
  }

  /**
   * After any run the stored projection lists exactly the sessions that were started and have not completed, and names
   * one as active exactly when it is the only one.
   */
  lemma ProjectionListsOpenSessions(codec: Codec, steps: seq<Step>)
    requires Lawful(codec)
    ensures
      var db := After(codec, steps);
      && (forall session, taskId :: (session, taskId) in db.activeSessions <==> IsOpen(db, session, taskId))
      && (forall session, taskId ::
            db.activeState == Some((session, taskId))
            <==> IsOpen(db, session, taskId) && forall s, t :: IsOpen(db, s, t) ==> (s, t) == (session, taskId))
  {
    hide After, SessionInv, TablesInv;
    ReachableInv(codec, steps);
    var db := After(codec, steps);
    forall session, taskId | true ensures (session, taskId) in db.activeSessions <==> IsOpen(db, session, taskId) {
      if session in db.sessions {
        OneSession(codec, db, session);
        EndedIsCompleted(codec, session, ViewOf(db, session));
      }
    }
    SoleIsOnly(db.activeSessions);
    assert forall p :: p in db.activeSessions <==> IsOpen(db, p.0, p.1);
  }

  lemma EndedIsCompleted(codec: Codec, session: string, v: View)
    requires SessionInv(codec, session, v)
    ensures v.endedAt.Some? <==> v.task.status == Completed
  {
  }

  lemma SoleIsOnly(open: set<(string, string)>)
    ensures forall p :: SoleSession(open) == Some(p) <==> p in open && forall q :: q in open ==> q == p
  {
    forall p | p in open && forall q :: q in open ==> q == p ensures open == {p} {
    }
  }

  lemma AgreesOnSession(codec: Codec, session: string, v: View)
    requires SessionInv(codec, session, v)
    ensures AuthorityHolds(codec, session, v) && !RowCorrupt(v) && Conserved(v)
  {
    hide AuthorityHolds, RowCorrupt, Conserved, HistoryInv, LedgerInv, DecisionInv, EvidenceInv;
    ReaderAccepts(codec, session, v);
  }

  /** The session exists in both stores, and everything known about it has only grown. */
  ghost predicate SessionGrew(db: Tables, after: Tables, session: string) {
    && session in db.sessions && session in after.sessions
    && Known(db, session) && Known(after, session)
    && Grows(ViewOf(db, session), ViewOf(after, session))
  }

  lemma SessionGrewTransitive(db: Tables, between: Tables, after: Tables, session: string)
    requires SessionGrew(db, between, session) && SessionGrew(between, after, session)
    ensures SessionGrew(db, after, session)
  {
    hide Grows, ViewOf;
    GrowsTransitive(ViewOf(db, session), ViewOf(between, session), ViewOf(after, session));
  }

  lemma SessionGrewReflexive(codec: Codec, steps: seq<Step>, session: string)
    requires Lawful(codec) && session in After(codec, steps).sessions
    ensures SessionGrew(After(codec, steps), After(codec, steps), session)
  {
    hide Grows, ViewOf, After, Lawful;
    KnownAt(codec, steps, session);
    GrowsReflexive(ViewOf(After(codec, steps), session));
  }

  /** Between two points of a run, everything known about a session has only grown. */
  lemma {:induction false} RunGrows(codec: Codec, steps: seq<Step>, earlier: nat, later: nat, session: string)
    requires Lawful(codec) && earlier <= later <= |steps|
    requires session in After(codec, steps[..earlier]).sessions
    ensures SessionGrew(After(codec, steps[..earlier]), After(codec, steps[..later]), session)
    decreases later
  {
    hide SessionGrew, After, Lawful;
    if earlier == later {
      SessionGrewReflexive(codec, steps[..earlier], session);
    } else {
      RunGrows(codec, steps, earlier, later - 1, session);
      PresentAfter(After(codec, steps[..earlier]), After(codec, steps[..later - 1]), session);
      assert steps[..later] == steps[..later - 1] + [steps[later - 1]];
      OneStepGrows(codec, steps[..later - 1], steps[later - 1], session);
      SessionGrewTransitive(
        After(codec, steps[..earlier]), After(codec, steps[..later - 1]), After(codec, steps[..later]), session);
    }
  }

  lemma PresentAfter(db: Tables, after: Tables, session: string)
    requires SessionGrew(db, after, session)
    ensures session in after.sessions
  {
  }

  lemma KnownAt(codec: Codec, steps: seq<Step>, session: string)
    requires Lawful(codec) && session in After(codec, steps).sessions
    ensures Known(After(codec, steps), session) && SessionInv(codec, session, ViewOf(After(codec, steps), session))
  {
    hide StoreInv, After, SessionInv;
    ReachableInv(codec, steps);
    OneSession(codec, After(codec, steps), session);
  }

  lemma OneStepGrows(codec: Codec, steps: seq<Step>, step: Step, session: string)
    requires Lawful(codec) && session in After(codec, steps).sessions
    ensures SessionGrew(After(codec, steps), After(codec, steps + [step]), session)
  {
    hide StoreInv, StoreGrows, Next, Grows, ViewOf;
    assert (steps + [step])[..|steps|] == steps;
    var db := After(codec, steps);
    ReachableInv(codec, steps);
    KnownAt(codec, steps, session);
    NextKeeps(codec, db, step);
    GrowsAt(db, Next(codec, db, step), session);
  }

  lemma GrowsAt(db: Tables, after: Tables, session: string)
    requires StoreGrows(db, after) && session in db.sessions && Known(db, session)
    ensures session in after.sessions && Known(after, session) && Grows(ViewOf(db, session), ViewOf(after, session))
  {
    assert Known(after, session);
  }

  // ----- optimistic concurrency

  /** The transaction has passed every check up to the guards. */
  ghost predicate ReachesGuards(codec: Codec, db: Tables, call: TransitionCall) {
    && Known(db, call.request.sessionId)
    && FindDecision(Of(db.decisions, call.request.sessionId), call.key).None?
    && var v := ViewOf(db, call.request.sessionId);
    && call.request.expectedVersion == v.task.stateVersion
    && EvaluateLifecycleTransition(
         v.task.status, call.request.target, v.task.blockedFrom, Some(PhaseOf(v))).TransitionAllowed?
    && (call.watermark.Some? ==> call.watermark.value == ReadWatermark(v))
  }

  lemma EqualWatermarks(codec: Codec, session: string, u: View, w: View)
    requires SessionInv(codec, session, w) && Grows(u, w)
    ensures ReadWatermark(u) == ReadWatermark(w)
            <==> u.gates == w.gates && u.signedGates == w.signedGates && u.reviews == w.reviews
  {
    hide HistoryInv, LedgerInv, Conserved, DecisionInv;
    EqualWatermarkMeansEqualRows(u.gates, w.gates, GateSequence);
    EqualWatermarkMeansEqualRows(u.signedGates, w.signedGates, SignedGateSequence);
    EqualWatermarkMeansEqualRows(u.reviews, w.reviews, ReviewSequence);
  }

  lemma VersionIsLength(codec: Codec, session: string, v: View)
    requires SessionInv(codec, session, v)
    ensures v.task.stateVersion == |v.transitions|
    ensures v.task == CurrentTask(v.transitions)
  {
  }

  lemma UnblockedHasNoPrior(codec: Codec, session: string, v: View)
    requires SessionInv(codec, session, v)
    ensures v.task.status != Blocked ==> v.task.blockedFrom.None?
  {
    hide SessionInv;
    VersionIsLength(codec, session, v);
  }

  lemma SamePhase(codec: Codec, session: string, u: View, w: View)
    requires SessionInv(codec, session, u) && SessionInv(codec, session, w) && u.transitions == w.transitions
    ensures PhaseOf(u) == PhaseOf(w)
  {
    hide SessionInv;
    PhaseOfInv(codec, session, u);
    PhaseOfInv(codec, session, w);
  }

  /**
   * A lifecycle read while other writers commit freely. If a later transaction reaches the guards, the history inside
   * it is the history that was read exactly when the request expects the version that was read.
   */
  lemma HistoryIsCurrent(codec: Codec, steps: seq<Step>, call: TransitionCall, lifecycleAt: nat, applyAt: nat)
    requires Lawful(codec) && lifecycleAt <= applyAt <= |steps|
    requires call.request.sessionId in After(codec, steps[..lifecycleAt]).sessions
    requires ReachesGuards(codec, After(codec, steps[..applyAt]), call)
    ensures
      var session := call.request.sessionId;
      && Known(After(codec, steps[..lifecycleAt]), session)
      && var lifecycle := ViewOf(After(codec, steps[..lifecycleAt]), session);
         var inside := ViewOf(After(codec, steps[..applyAt]), session);
      && Grows(lifecycle, inside)
      && (lifecycle.transitions == inside.transitions
          <==> call.request.expectedVersion == lifecycle.task.stateVersion)
      && (lifecycle.transitions == inside.transitions ==>
            lifecycle.task == inside.task && PhaseOf(lifecycle) == PhaseOf(inside))
  {
    hide SessionInv, ViewOf, After, ReadWatermark, PhaseOf, EvaluateLifecycleTransition;
    var session := call.request.sessionId;
    RunGrows(codec, steps, lifecycleAt, applyAt, session);
    var u := ViewOf(After(codec, steps[..lifecycleAt]), session);
    var w := ViewOf(After(codec, steps[..applyAt]), session);
    KnownAt(codec, steps[..lifecycleAt], session);
    KnownAt(codec, steps[..applyAt], session);
    VersionIsLength(codec, session, u);
    VersionIsLength(codec, session, w);
    if u.transitions == w.transitions { SamePhase(codec, session, u, w); }
  }

  /**
   * A watermark and then the evidence, read while other writers commit freely. If a later transaction reaches the
   * guards under that watermark, the receipts inside it are the receipts that were read, whatever version was
   * expected.
   */
  lemma ReceiptsAreCurrent(
    codec: Codec, steps: seq<Step>, call: TransitionCall, watermarkAt: nat, evidenceAt: nat, applyAt: nat)
    requires Lawful(codec) && watermarkAt <= evidenceAt <= applyAt <= |steps|
    requires call.request.sessionId in After(codec, steps[..watermarkAt]).sessions
    requires Known(After(codec, steps[..watermarkAt]), call.request.sessionId)
    requires call.watermark == Some(ReadWatermark(ViewOf(After(codec, steps[..watermarkAt]), call.request.sessionId)))
    requires ReachesGuards(codec, After(codec, steps[..applyAt]), call)
    ensures
      var session := call.request.sessionId;
      && Known(After(codec, steps[..evidenceAt]), session)
      && var evidence := ViewOf(After(codec, steps[..evidenceAt]), session);
         var inside := ViewOf(After(codec, steps[..applyAt]), session);
      && Grows(evidence, inside)
      && evidence.gates == inside.gates
      && evidence.signedGates == inside.signedGates
      && evidence.reviews == inside.reviews
  {
    hide SessionInv, ViewOf, After, ReadWatermark, PhaseOf, EvaluateLifecycleTransition;
    var session := call.request.sessionId;
    RunGrows(codec, steps, watermarkAt, evidenceAt, session);
    RunGrows(codec, steps, evidenceAt, applyAt, session);
    var m := ViewOf(After(codec, steps[..watermarkAt]), session);
    var w := ViewOf(After(codec, steps[..applyAt]), session);
    KnownAt(codec, steps[..applyAt], session);
    GrowsTransitive(m, ViewOf(After(codec, steps[..evidenceAt]), session), w);
    EqualWatermarks(codec, session, m, w);
  }

  /**
   * Four separate reads of one session, taken while other writers commit freely in between: the lifecycle, then the
   * watermark, then the evidence, then the write transaction. If the transaction reaches the guards expecting the
   * version the lifecycle was read at, everything the guards were built from is as it is inside the transaction.
   */
  lemma ContextIsCurrent(
    codec: Codec, steps: seq<Step>, call: TransitionCall, lifecycleAt: nat, watermarkAt: nat, evidenceAt: nat,
    applyAt: nat)
    requires Lawful(codec) && lifecycleAt <= watermarkAt <= evidenceAt <= applyAt <= |steps|
    requires call.request.sessionId in After(codec, steps[..lifecycleAt]).sessions
    requires Known(After(codec, steps[..watermarkAt]), call.request.sessionId)
    requires call.watermark == Some(ReadWatermark(ViewOf(After(codec, steps[..watermarkAt]), call.request.sessionId)))
    requires ReachesGuards(codec, After(codec, steps[..applyAt]), call)
    ensures
      var session := call.request.sessionId;
      && Known(After(codec, steps[..lifecycleAt]), session)
      && Known(After(codec, steps[..evidenceAt]), session)
      && var lifecycle := ViewOf(After(codec, steps[..lifecycleAt]), session);
         var evidence := ViewOf(After(codec, steps[..evidenceAt]), session);
         var inside := ViewOf(After(codec, steps[..applyAt]), session);
      && evidence.gates == inside.gates
      && evidence.signedGates == inside.signedGates
      && evidence.reviews == inside.reviews
      && (call.request.expectedVersion == lifecycle.task.stateVersion
          <==> lifecycle.transitions == evidence.transitions == inside.transitions)
      && (call.request.expectedVersion == lifecycle.task.stateVersion ==>
            lifecycle.task == inside.task && PhaseOf(lifecycle) == PhaseOf(inside) && evidence.plan == inside.plan)
  {
    hide SessionInv, ViewOf, After, ReadWatermark, PhaseOf, EvaluateLifecycleTransition;
    var session := call.request.sessionId;
    RunGrows(codec, steps, lifecycleAt, watermarkAt, session);
    PresentAfter(After(codec, steps[..lifecycleAt]), After(codec, steps[..watermarkAt]), session);
    RunGrows(codec, steps, watermarkAt, evidenceAt, session);
    HistoryIsCurrent(codec, steps, call, lifecycleAt, applyAt);
    ReceiptsAreCurrent(codec, steps, call, watermarkAt, evidenceAt, applyAt);
  }
}

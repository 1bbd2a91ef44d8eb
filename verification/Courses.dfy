/**
 * Serviced runs, built one transaction at a time: from a session as it stands, a prepared call the guards allow extends
 * the run by an applied transition, whatever the call was prepared from.
 */
module Courses {
  import opened Options
  import opened JsonValues
  import opened Lifecycle
  import opened SessionTransition
  import opened ProofEvidence
  import opened AuditLedger
  import opened Rows
  import opened StoreTables
  import opened SessionStore
  import opened StoreAnswers
  import opened StoreInvariant
  import opened StoreSteps
  import opened StoreRuns
  import opened SessionService
  import opened ServiceRuns
  import opened ServedTraces
  import opened StoredEvidence
  import opened Admissions
  import opened PlannedTransitions

  /** A run, and how each of its transitions was prepared. */
  datatype Course = Course(steps: seq<Step>, preparations: seq<Preparation>)

  /** A serviced run after which the session stands as `v` shows it. */
  ghost predicate Stands(codec: Codec, c: Course, session: string, v: View) {
    && Serviced(codec, c.steps, c.preparations)
    && session in After(codec, c.steps).sessions
    && IsViewAt(codec, c.steps, |c.steps|, session, v)
  }

  /** A deployment that tells the first `n` events of a ledger apart. */
  ghost predicate Deployment(codec: Codec, n: nat) {
    Lawful(codec) && IsSafeInteger(n) && SeparatesEvents(codec.hashing, n)
  }

  /** There is room for `more` further events in this ledger. */
  ghost predicate Ample(codec: Codec, v: View, more: nat) {
    Deployment(codec, |v.audit| + more)
  }

  lemma DeploymentIsLawful(codec: Codec, n: nat)
    requires Deployment(codec, n)
    ensures Lawful(codec)
  {
  }

  lemma DeploymentLess(codec: Codec, n: nat, fewer: nat)
    requires Deployment(codec, n) && fewer <= n
    ensures Deployment(codec, fewer)
  {
  }

  lemma DeploymentIsAmple(codec: Codec, n: nat, v: View, more: nat)
    requires Deployment(codec, n) && |v.audit| + more <= n
    ensures Ample(codec, v, more)
  {
  }

  lemma AmpleLess(codec: Codec, v: View, more: nat, w: View, fewer: nat)
    requires Ample(codec, v, more) && |w.audit| + fewer <= |v.audit| + more
    ensures Ample(codec, w, fewer)
  {
  }

  /** The run went one transaction further. */
  ghost predicate Further(c: Course, d: Course) {
    |d.steps| == |d.preparations| == |c.steps| + 1 && c.steps <= d.steps && c.preparations <= d.preparations
  }

  /** And if every caller so far expected the version it was shown, so does the one that went further. */
  ghost predicate Onward(c: Course, d: Course) {
    Further(c, d) && (Prompted(c.steps, c.preparations) ==> Prompted(d.steps, d.preparations))
  }

  lemma PromptedExtend(c: Course, step: Step, p: Preparation)
    requires |c.preparations| == |c.steps|
    requires step.Deliver? ==> p.taken.lifecycle.None? || ExpectsWhatWasRead(step.call, p)
    ensures Prompted(c.steps, c.preparations) ==> Prompted(c.steps + [step], c.preparations + [p])
  {
    hide ExpectsWhatWasRead;
    if Prompted(c.steps, c.preparations) {
      forall k | 0 <= k < |c.steps + [step]| && (c.steps + [step])[k].Deliver?
        ensures (c.preparations + [p])[k].taken.lifecycle.None?
                || ExpectsWhatWasRead((c.steps + [step])[k].call, (c.preparations + [p])[k])
      {
        if k < |c.steps| { assert c.preparations[k] == (c.preparations + [p])[k]; }
      }
    }
  }

  lemma StandsIsReachable(codec: Codec, c: Course, session: string, v: View)
    requires Lawful(codec) && Stands(codec, c, session, v)
    ensures StoreInv(codec, After(codec, c.steps)) && SessionInv(codec, session, v)
    ensures Known(After(codec, c.steps), session) && ViewOf(After(codec, c.steps), session) == v
  {
    hide After, StoreInv, SessionInv, ViewOf, Serviced;
    assert c.steps[..|c.steps|] == c.steps;
    ReachableInv(codec, c.steps);
    KnownAt(codec, c.steps, session);
  }

  // ----- fresh names

  function Longest(names: seq<string>): nat {
    if names == [] then 0
    else
      var n := |names| - 1;
      if |names[n]| > Longest(names[..n]) then |names[n]| else Longest(names[..n])
  }

  lemma {:induction false} LongestIsLongest(names: seq<string>)
    ensures forall i :: 0 <= i < |names| ==> |names[i]| <= Longest(names)
  {
    if names != [] { LongestIsLongest(names[..|names| - 1]); }
  }

  /** There is always another name. */
  lemma FreshName(names: seq<string>) returns (name: string)
    ensures name !in names
  {
    LongestIsLongest(names);
    name := Repeat('x', Longest(names) + 1);
  }

  lemma FreshIdentifiers(db: Tables) returns (supply: Supply)
    ensures FreshSupply(db, supply)
  {
    var rows := seq(|db.transitions|, i requires 0 <= i < |db.transitions| => db.transitions[i].body.id);
    var events := seq(|db.audit|, i requires 0 <= i < |db.audit| => db.audit[i].body.value.id);
    var transitionId := FreshName(rows);
    var decisionEventId := FreshName(events);
    var appliedEventId := FreshName(events + [decisionEventId]);
    supply := Supply(transitionId, decisionEventId, appliedEventId, 0);
    forall row | row in db.transitions ensures row.body.id != transitionId {
      var i :| 0 <= i < |db.transitions| && db.transitions[i] == row;
      assert rows[i] == row.body.id;
    }
    forall row | row in db.audit ensures row.body.value.id != decisionEventId && row.body.value.id != appliedEventId {
      var i :| 0 <= i < |db.audit| && db.audit[i] == row;
      assert events[i] == row.body.value.id && (events + [decisionEventId])[i] == events[i];
    }
    assert (events + [decisionEventId])[|events|] == decisionEventId;
  }

  lemma FreshKey(v: View) returns (key: string)
    ensures FindDecision(v.decisions, key).None?
  {
    var keys := seq(|v.decisions|, i requires 0 <= i < |v.decisions| => v.decisions[i].key);
    key := FreshName(keys);
    forall i | 0 <= i < |v.decisions| ensures v.decisions[i].key != key {
      assert keys[i] == v.decisions[i].key;
    }
    FindDecisionAppend(v.decisions, [], key);
  }

  // ----- one more transition

  /** The session after an admitted call, apart from the two ledger events. */
  ghost predicate Moves(codec: Codec, v: View, call: TransitionCall, supply: Supply, w: View) {
    && w.taskId == v.taskId
    && w.task == AppliedTask(v, call)
    && w.transitions == v.transitions + [AppliedRow(codec, v, call, supply)]
    && w.decisions == v.decisions + [AppliedDecision(codec, v, call, supply)]
    && w.plan == (if call.boundPlan.Some? then call.boundPlan else v.plan)
    && w.gates == v.gates && w.signedGates == v.signedGates && w.reviews == v.reviews
    && |w.audit| == |v.audit| + 2
  }

  lemma AdmissionMoves(codec: Codec, db: Tables, call: TransitionCall, supply: Supply)
    requires StoreInv(codec, db) && call.request.sessionId in db.sessions && Admits(codec, db, call, supply)
    ensures
      var after := ApplyTransition(codec, db, call, supply).0;
      && call.request.sessionId in after.sessions && Known(after, call.request.sessionId)
      && Moves(codec, ViewOf(db, call.request.sessionId), call, supply, ViewOf(after, call.request.sessionId))
  {
    hide StoreInv, TablesInv, SessionInv, Judge, RecordAdmission, AdmittedRows, AppliedRow, AppliedDecision,
      AppliedTask;
    var session := call.request.sessionId;
    KnownTables(codec, db);
    OneSession(codec, db, session);
    LedgerOf(codec, session, ViewOf(db, session));
    var decided, applied := AdmissionRows(codec, db, call, supply);
    AdmissionUpdates(codec, db, RecordAdmission(codec, db, call, supply).value, call, supply, decided, applied);
  }

  /** A call admitted on the rows the run ends with extends the run, however early it was prepared. */
  lemma Advance(codec: Codec, c: Course, session: string, v: View, call: TransitionCall, p: Preparation)
    returns (d: Course, w: View, supply: Supply)
    requires Stands(codec, c, session, v) && Ample(codec, v, 2)
    requires call.request.sessionId == session && PreparedBy(codec, c.steps, |c.steps|, call, p)
    requires FindDecision(v.decisions, call.key).None? && JudgeFresh(v, call).Admit?
    requires call.boundPlan.Some? ==> v.plan.None?
    ensures d == Course(c.steps + [Deliver(call, supply)], c.preparations + [p])
    ensures Stands(codec, d, session, w) && Moves(codec, v, call, supply, w)
  {
    hide After, StoreInv, SessionInv, PreparedBy, Judge, JudgeFresh, Moves, SeparatesEvents, Lawful, FreshSupply,
      Serviced, ApplyTransition, Next, Admits;
    StandsIsReachable(codec, c, session, v);
    var db := After(codec, c.steps);
    supply := FreshIdentifiers(db);
    var step := Deliver(call, supply);
    d := Course(c.steps + [step], c.preparations + [p]);
    ReadsDecisions(db, session);
    FreshCallIsJudged(codec, db, call);
    LedgerIsView(db, session);
    AdmissionIsWritten(codec, db, call, supply);
    AdmissionMoves(codec, db, call, supply);
    AfterStep(codec, c.steps, step);
    NextIsApply(codec, db, step);
    assert d.steps[..|d.steps|] == d.steps;
    w := ViewOf(After(codec, d.steps), session);
    ServicedExtend(codec, c, step, p);
  }

  lemma LedgerIsView(db: Tables, session: string)
    requires Known(db, session)
    ensures Of(db.audit, session) == ViewOf(db, session).audit
    ensures ViewOf(db, session).plan.None? ==> session !in db.plans
  {
  }

  lemma ServicedExtend(codec: Codec, c: Course, step: Step, p: Preparation)
    requires Serviced(codec, c.steps, c.preparations)
    requires step.Deliver? ==> PreparedBy(codec, c.steps, |c.steps|, step.call, p)
    ensures Serviced(codec, c.steps + [step], c.preparations + [p])
  {
    hide After, PreparedBy;
    forall k | 0 <= k < |c.steps + [step]| && (c.steps + [step])[k].Deliver?
      ensures PreparedBy(codec, c.steps + [step], k, (c.steps + [step])[k].call, (c.preparations + [p])[k])
    {
      var q := (c.preparations + [p])[k];
      if k < |c.steps| { assert c.preparations[k] == q; }
      PreparedLater(codec, c.steps, [step], k, (c.steps + [step])[k].call, q);
    }
  }

  // ----- a history grows by one entry

  lemma HistoryMoves(codec: Codec, session: string, v: View, call: TransitionCall, supply: Supply, w: View)
    requires Lawful(codec) && SessionInv(codec, session, v) && SessionInv(codec, session, w)
    requires Moves(codec, v, call, supply, w)
    ensures
      var entry := HistoryEntry(
                     supply.transitionId, v.task.status, call.request.target, v.task.stateVersion, call.request.input);
      HistoryOf(codec, w) == HistoryOf(codec, v) + [entry]
    ensures RepairCount(w.transitions)
            == RepairCount(v.transitions) + if IsRepairEntry(v.task.status, call.request.target) then 1 else 0
    ensures PhaseOf(w) == if call.request.target in POST_PR_STATES then PostPr else PhaseOf(v)
  {
    hide SessionInv, HistoryOf, PhaseOf;
    HistoryOfView(codec, session, v);
    HistoryOfView(codec, session, w);
    var row := AppliedRow(codec, v, call, supply);
    assert w.transitions[|v.transitions|] == row && w.transitions[..|v.transitions|] == v.transitions;
    assert ToHistory(codec, w.transitions) == ToHistory(codec, v.transitions) + [EntryOf(codec, row)];
    PhaseOfInv(codec, session, v);
    PhaseOfInv(codec, session, w);
  }

  // ----- a preparation whose reads fall on two moments

  /** The lifecycle read when the run was `at` transactions long, everything else when it was `later` long. */
  function Reading(at: nat, u: View, later: nat, e: View, observed: Observation, prepared: PreparedPlan): Preparation {
    Preparation(at, later, later, later, later, Snapshots(Some(u), e, e, e), observed, prepared)
  }

  /** What the service calls having read this, whatever version the request expects. */
  function CallFrom(codec: Codec, request: TransitionRequest, key: string, p: Preparation): TransitionCall {
    PrepareCall(codec, request, key, false, p.taken, p.observed, p.prepared)
  }

  /** A key unused now was unused then, so the service prepares the call from what it read then. */
  lemma ReadingPrepares(
    codec: Codec, c: Course, session: string, v: View, request: TransitionRequest, key: string, p: Preparation)
    requires Lawful(codec) && Stands(codec, c, session, v) && p.taken.lifecycle.Some?
    requires p == Reading(p.lifecycleAt, p.taken.lifecycle.value, p.keyAt, p.taken.evidence, p.observed, p.prepared)
    requires p.lifecycleAt <= p.keyAt <= |c.steps| && session in After(codec, c.steps[..p.lifecycleAt]).sessions
    requires IsViewAt(codec, c.steps, p.lifecycleAt, session, p.taken.lifecycle.value)
    requires IsViewAt(codec, c.steps, p.keyAt, session, p.taken.evidence)
    requires request.sessionId == session && FindDecision(v.decisions, key).None?
    ensures PreparedBy(codec, c.steps, |c.steps|, CallFrom(codec, request, key, p), p)
    ensures CallFrom(codec, request, key, p).request == request && CallFrom(codec, request, key, p).key == key
  {
    hide After, ViewOf, PrepareCall, Lawful, Serviced;
    RunGrows(codec, c.steps, p.lifecycleAt, p.keyAt, session);
    PresentAfter(After(codec, c.steps[..p.lifecycleAt]), After(codec, c.steps[..p.keyAt]), session);
    ReadsDecisions(After(codec, c.steps[..|c.steps|]), session);
    UnrecordedKeyWasUnrecorded(codec, c.steps, p.keyAt, |c.steps|, session, key);
    PreparedKeepsRequest(codec, request, key, false, p.taken, p.observed, p.prepared);
  }

  lemma StandsNow(codec: Codec, c: Course, session: string, v: View)
    requires Stands(codec, c, session, v)
    ensures session in After(codec, c.steps[..|c.steps|]).sessions && IsViewAt(codec, c.steps, |c.steps|, session, v)
  {
    hide After, Serviced, ViewOf;
    assert c.steps[..|c.steps|] == c.steps;
  }

  /** What was read stays what was read while the run goes on. */
  lemma ReadStays(codec: Codec, c: Course, d: Course, session: string, at: nat, u: View)
    requires c.steps <= d.steps && at <= |c.steps|
    requires session in After(codec, c.steps[..at]).sessions && IsViewAt(codec, c.steps, at, session, u)
    ensures session in After(codec, d.steps[..at]).sessions && IsViewAt(codec, d.steps, at, session, u)
  {
    hide After, ViewOf;
    assert d.steps[..at] == c.steps[..at];
  }

  /** A transition under a fresh key, prepared from what was read then, and admitted now. */
  lemma Transact(codec: Codec, c: Course, session: string, v: View, request: TransitionRequest, p: Preparation)
    returns (d: Course, w: View, call: TransitionCall, supply: Supply)
    requires Stands(codec, c, session, v) && Ample(codec, v, 2) && p.taken.lifecycle.Some?
    requires p == Reading(p.lifecycleAt, p.taken.lifecycle.value, p.keyAt, p.taken.evidence, p.observed, p.prepared)
    requires p.lifecycleAt <= p.keyAt <= |c.steps| && session in After(codec, c.steps[..p.lifecycleAt]).sessions
    requires IsViewAt(codec, c.steps, p.lifecycleAt, session, p.taken.lifecycle.value)
    requires IsViewAt(codec, c.steps, p.keyAt, session, p.taken.evidence)
    requires request.sessionId == session
    requires forall key :: JudgeFresh(v, CallFrom(codec, request, key, p)).Admit?
    requires forall key :: CallFrom(codec, request, key, p).boundPlan.Some? ==> v.plan.None?
    ensures call == CallFrom(codec, request, call.key, p) && call.request == request
    ensures d == Course(c.steps + [Deliver(call, supply)], c.preparations + [p])
    ensures Stands(codec, d, session, w) && Moves(codec, v, call, supply, w)
  {
    hide After, ViewOf, Lawful, Serviced, Stands, Moves, JudgeFresh, PrepareCall, PreparedBy, SeparatesEvents;
    var key := FreshKey(v);
    ReadingPrepares(codec, c, session, v, request, key, p);
    call := CallFrom(codec, request, key, p);
    d, w, supply := Advance(codec, c, session, v, call, p);
  }

  lemma PreparationsAreSteps(codec: Codec, c: Course, session: string, v: View)
    requires Stands(codec, c, session, v)
    ensures |c.preparations| == |c.steps|
  {
    hide After, ViewOf;
  }

  // ----- what a transition leaves behind

  predicate SameReceipts(u: View, v: View) {
    u.gates == v.gates && u.signedGates == v.signedGates && u.reviews == v.reviews
  }

  /** The session has moved to `target` by a request that carried `input`; its receipts are what they were. */
  ghost predicate Went(codec: Codec, v: View, target: TaskStatus, input: Json, w: View) {
    && w.task == TaskRow(target, v.task.stateVersion + 1, if target == Blocked then Some(v.task.status) else None)
    && SameReceipts(v, w) && |w.audit| == |v.audit| + 2
    && RepairCount(w.transitions)
       == RepairCount(v.transitions) + (if IsRepairEntry(v.task.status, target) then 1 else 0)
    && PhaseOf(w) == (if target in POST_PR_STATES then PostPr else PhaseOf(v))
    && exists id :: HistoryOf(codec, w)
                    == HistoryOf(codec, v) + [HistoryEntry(id, v.task.status, target, v.task.stateVersion, input)]
  }

  lemma MovedWent(codec: Codec, v: View, call: TransitionCall, supply: Supply, w: View)
    requires Moves(codec, v, call, supply, w)
    requires
      var entry := HistoryEntry(
                     supply.transitionId, v.task.status, call.request.target, v.task.stateVersion, call.request.input);
      HistoryOf(codec, w) == HistoryOf(codec, v) + [entry]
    requires RepairCount(w.transitions)
             == RepairCount(v.transitions) + if IsRepairEntry(v.task.status, call.request.target) then 1 else 0
    requires PhaseOf(w) == if call.request.target in POST_PR_STATES then PostPr else PhaseOf(v)
    ensures Went(codec, v, call.request.target, call.request.input, w)
    ensures w.plan == if call.boundPlan.Some? then call.boundPlan else v.plan
  {
    hide HistoryOf, RepairCount, PhaseOf, AppliedRow, AppliedDecision;
  }

  /** `Transact`, and what it means for the session. */
  lemma Go(codec: Codec, c: Course, session: string, v: View, request: TransitionRequest, p: Preparation)
    returns (d: Course, w: View, call: TransitionCall)
    requires Stands(codec, c, session, v) && Ample(codec, v, 2) && p.taken.lifecycle.Some?
    requires p == Reading(p.lifecycleAt, p.taken.lifecycle.value, p.keyAt, p.taken.evidence, p.observed, p.prepared)
    requires p.lifecycleAt <= p.keyAt <= |c.steps| && session in After(codec, c.steps[..p.lifecycleAt]).sessions
    requires IsViewAt(codec, c.steps, p.lifecycleAt, session, p.taken.lifecycle.value)
    requires IsViewAt(codec, c.steps, p.keyAt, session, p.taken.evidence)
    requires request.sessionId == session
    requires forall key :: JudgeFresh(v, CallFrom(codec, request, key, p)).Admit?
    requires forall key :: CallFrom(codec, request, key, p).boundPlan.Some? ==> v.plan.None?
    ensures call == CallFrom(codec, request, call.key, p) && call.request == request
    ensures Further(c, d)
    ensures request.expectedVersion == p.taken.lifecycle.value.task.stateVersion ==> Onward(c, d)
    ensures d.steps[|c.steps|].Deliver? && d.steps[|c.steps|].call == call && d.preparations[|c.steps|] == p
    ensures Stands(codec, d, session, w) && Went(codec, v, request.target, request.input, w)
    ensures w.plan == if call.boundPlan.Some? then call.boundPlan else v.plan
  {
    hide After, ViewOf, Stands, Moves, JudgeFresh, CallFrom, SeparatesEvents, SessionInv, StoreInv, HistoryOf,
      RepairCount, PhaseOf, Went;
    PreparationsAreSteps(codec, c, session, v);
    var supply;
    d, w, call, supply := Transact(codec, c, session, v, request, p);
    StandsIsReachable(codec, c, session, v);
    StandsIsReachable(codec, d, session, w);
    HistoryMoves(codec, session, v, call, supply, w);
    MovedWent(codec, v, call, supply, w);
    if ExpectsWhatWasRead(call, p) { PromptedExtend(c, Deliver(call, supply), p); }
  }

  // ----- transitions that need the proof

  function Ask(session: string, target: TaskStatus, version: int): TransitionRequest {
    TransitionRequest(session, target, version, Cli, EMPTY_INPUT)
  }

  /** A target that needs the proof is prepared under the full context and the watermark of what was read. */
  lemma ProofCall(codec: Codec, request: TransitionRequest, key: string, p: Preparation)
    requires p.taken.lifecycle.Some? && NeedsProof(request, p.taken.lifecycle.value)
    ensures CallFrom(codec, request, key, p)
            == TransitionCall(
                 request, key, None, Some(ReadWatermark(p.taken.watermark)),
                 UnderContext(FullContext(codec, p.taken.lifecycle.value, p.taken.evidence, p.observed)))
  {
    hide EvaluateSessionProof, FullContext, PlanlessContext, ReadWatermark;
  }

  lemma ProofCallIsJudged(codec: Codec, v: View, request: TransitionRequest, key: string, p: Preparation)
    requires p.taken.lifecycle.Some? && NeedsProof(request, p.taken.lifecycle.value)
    requires ReadWatermark(p.taken.watermark) == ReadWatermark(v) && request.expectedVersion == v.task.stateVersion
    requires EvaluateLifecycleTransition(
               v.task.status, request.target, v.task.blockedFrom, Some(PhaseOf(v))).TransitionAllowed?
    ensures
      JudgeFresh(v, CallFrom(codec, request, key, p)).Admit?
      <==> EvaluateTransitionGuards(
             v.task.status, request.target, request.input, v.task.blockedFrom,
             FullContext(codec, p.taken.lifecycle.value, p.taken.evidence, p.observed)).GuardsAllowed?
    ensures CallFrom(codec, request, key, p).boundPlan.None?
  {
    hide EvaluateTransitionGuards, EvaluateLifecycleTransition, PhaseOf, ReadWatermark, FullContext, NeedsProof,
      CallFrom;
    ProofCall(codec, request, key, p);
  }

  /** A transition under the full context of the rows the run ends with. */
  lemma GoProof(
    codec: Codec, c: Course, session: string, v: View, target: TaskStatus, input: Json, observed: Observation)
    returns (d: Course, w: View)
    requires Stands(codec, c, session, v) && Ample(codec, v, 2) && RequiresProofGuardContext(v.task.status, target)
    requires EvaluateLifecycleTransition(
               v.task.status, target, v.task.blockedFrom, Some(PhaseOf(v))).TransitionAllowed?
    requires EvaluateTransitionGuards(
               v.task.status, target, input, v.task.blockedFrom, FullContext(codec, v, v, observed)).GuardsAllowed?
    ensures Onward(c, d)
    ensures Stands(codec, d, session, w) && Went(codec, v, target, input, w) && w.plan == v.plan
  {
    hide After, ViewOf, Stands, JudgeFresh, CallFrom, SeparatesEvents, PhaseOf, Went, EvaluateTransitionGuards,
      EvaluateLifecycleTransition, RequiresProofGuardContext;
    var request := TransitionRequest(session, target, v.task.stateVersion, Cli, input);
    var p := Reading(|c.steps|, v, |c.steps|, v, observed, PlanRejected(""));
    StandsNow(codec, c, session, v);
    forall key ensures JudgeFresh(v, CallFrom(codec, request, key, p)).Admit?
                       && CallFrom(codec, request, key, p).boundPlan.None? {
      ProofCallIsJudged(codec, v, request, key, p);
    }
    var call;
    d, w, call := Go(codec, c, session, v, request, p);
  }

  /** A transition under the full context, out of `reviewing` or `ready_for_human`. */
  lemma GoReviewed(codec: Codec, c: Course, session: string, v: View, target: TaskStatus, observed: Observation)
    returns (d: Course, w: View)
    requires Stands(codec, c, session, v) && Ample(codec, v, 2)
    requires v.task.status in {Reviewing, ReadyForHuman} && target != Blocked
    requires v.plan.Some? && observed.planIntact
    requires EvaluateLifecycleTransition(
               v.task.status, target, v.task.blockedFrom, Some(PhaseOf(v))).TransitionAllowed?
    requires EvaluateTransitionGuards(
               v.task.status, target, EMPTY_INPUT, v.task.blockedFrom,
               FullContext(codec, v, v, observed)).GuardsAllowed?
    ensures Onward(c, d)
    ensures Stands(codec, d, session, w) && Went(codec, v, target, EMPTY_INPUT, w) && w.plan == v.plan
  {
    hide After, ViewOf, Stands, JudgeFresh, SeparatesEvents, PhaseOf, Went, EvaluateTransitionGuards, FullContext,
      EvaluateLifecycleTransition, RunGuards, PrepareCall;
    var request := Ask(session, target, v.task.stateVersion);
    var p := Reading(|c.steps|, v, |c.steps|, v, observed, PlanRejected(""));
    StandsNow(codec, c, session, v);
    forall key ensures JudgeFresh(v, CallFrom(codec, request, key, p)).Admit?
                       && CallFrom(codec, request, key, p).boundPlan.None? {
      InstantIsJudged(codec, v, request, key, p);
    }
    var call;
    d, w, call := Go(codec, c, session, v, request, p);
  }

  lemma InstantIsJudged(codec: Codec, v: View, request: TransitionRequest, key: string, p: Preparation)
    requires p.taken == Snapshots(Some(v), v, v, v) && p.prepared == PlanRejected("")
    requires request.expectedVersion == v.task.stateVersion && request.input == EMPTY_INPUT
    requires EvaluateLifecycleTransition(
               v.task.status, request.target, v.task.blockedFrom, Some(PhaseOf(v))).TransitionAllowed?
    requires EvaluateTransitionGuards(
               v.task.status, request.target, EMPTY_INPUT, v.task.blockedFrom,
               FullContext(codec, v, v, p.observed)).GuardsAllowed?
    ensures JudgeFresh(v, CallFrom(codec, request, key, p)).Admit? && CallFrom(codec, request, key, p).boundPlan.None?
  {
    hide EvaluateTransitionGuards, EvaluateLifecycleTransition, FullContext, PhaseOf, ReadWatermark, PrepareCall,
      NeedsReview, NeedsProof, PlanlessContext, EvaluateSessionProof;
    CallCases(codec, v, request, key, p.observed, "");
    GuardsAgree(codec, v, request, key, p.observed, "");
  }

  // ----- starting, framing, and binding the plan

  /** A store whose only session has just been started. */
  lemma Begin(codec: Codec, taskId: string, session: string) returns (c: Course, v: View)
    requires Lawful(codec)
    ensures Stands(codec, c, session, v) && c == Course([Start(taskId, session, "started", 0)], [NO_PREPARATION])
    ensures Prompted(c.steps, c.preparations)
    ensures v.task == TaskRow(Queued, 0, None) && v.plan.None? && |v.audit| == 1 && v.transitions == []
    ensures v.gates == [] && v.signedGates == [] && v.reviews == [] && v.decisions == []
    ensures HistoryOf(codec, v) == [] && RepairCount(v.transitions) == 0 && PhaseOf(v) == PrePr
  {
    hide After, SessionInv, StoreInv, TablesInv, HistoryOf, PhaseOf, Lawful, StartSession;
    var step := Start(taskId, session, "started", 0);
    c := Course([step], [NO_PREPARATION]);
    EmptyStoreInv(codec);
    KnownTables(codec, EMPTY_TABLES);
    StartSucceeds(codec, taskId, session);
    var event := StartRows(codec, EMPTY_TABLES, taskId, session, "started", 0);
    NothingBefore(codec, step);
    var after := StartSession(codec, EMPTY_TABLES, taskId, session, "started", 0).value;
    StartViews(EMPTY_TABLES, after, taskId, session, event);
    v := ViewOf(after, session);
    assert c.steps[..1] == c.steps;
    StandsIsReachable(codec, c, session, v);
    HistoryOfView(codec, session, v);
    PhaseOfInv(codec, session, v);
  }

  const NO_PREPARATION :=
    Reading(0, NO_VIEW, 0, NO_VIEW,
            Observation(Repository(None, [], false), false, Inspection(map[], {}, {}), (from: Text, to: Text) => false),
            PlanRejected(""))

  lemma StartSucceeds(codec: Codec, taskId: string, session: string)
    ensures StartSession(codec, EMPTY_TABLES, taskId, session, "started", 0).Some?
  {
    assert ZERO_AUDIT_HASH == Repeat('0', 64);
  }

  lemma NothingBefore(codec: Codec, step: Step)
    ensures After(codec, [step]) == Next(codec, EMPTY_TABLES, step)
    ensures After(codec, []) == EMPTY_TABLES
  {
    hide Next;
    assert [step][..0] == [];
  }

  lemma Frame(codec: Codec, c: Course, session: string, v: View) returns (d: Course, w: View)
    requires Stands(codec, c, session, v) && Ample(codec, v, 2)
    requires v.task.status == Queued && v.task.blockedFrom.None?
    ensures Onward(c, d)
    ensures Stands(codec, d, session, w) && Went(codec, v, Framed, EMPTY_INPUT, w) && w.plan == v.plan
  {
    hide After, ViewOf, Stands, SeparatesEvents, PhaseOf, Went, ReadWatermark;
    var request := Ask(session, Framed, v.task.stateVersion);
    var p := Reading(|c.steps|, v, |c.steps|, v, NO_PREPARATION.observed, PlanRejected(""));
    StandsNow(codec, c, session, v);
    forall key ensures JudgeFresh(v, CallFrom(codec, request, key, p)).Admit?
                       && CallFrom(codec, request, key, p).boundPlan.None? {
      EmptyInputGuards(Queued, Framed, None, EMPTY_CONTEXT);
    }
    var call;
    d, w, call := Go(codec, c, session, v, request, p);
  }

  lemma BindPlan(codec: Codec, c: Course, session: string, v: View, plan: BoundPlan) returns (d: Course, w: View)
    requires Stands(codec, c, session, v) && Ample(codec, v, 2)
    requires v.task.status == Framed && v.task.blockedFrom.None? && v.plan.None?
    ensures Onward(c, d)
    ensures Stands(codec, d, session, w) && Went(codec, v, ProofReady, EMPTY_INPUT, w) && w.plan == Some(plan)
  {
    hide After, ViewOf, Stands, SeparatesEvents, PhaseOf, Went, ReadWatermark;
    var request := Ask(session, ProofReady, v.task.stateVersion);
    var p := Reading(|c.steps|, v, |c.steps|, v, NO_PREPARATION.observed, PlanReady(plan));
    StandsNow(codec, c, session, v);
    forall key ensures JudgeFresh(v, CallFrom(codec, request, key, p)).Admit?
                       && CallFrom(codec, request, key, p).boundPlan == Some(plan) {
      EmptyInputGuards(Framed, ProofReady, None, EMPTY_CONTEXT.(boundPlan := Some(plan)));
    }
    var call;
    d, w, call := Go(codec, c, session, v, request, p);
  }
}

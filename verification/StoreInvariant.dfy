/** What the write transactions keep, and why the history reader therefore accepts every reachable store. */
module StoreInvariant {
  import opened Options
  import opened JsonValues
  import opened Lifecycle
  import opened ProofEvidence
  import opened AuditLedger
  import opened Rows
  import opened StoreTables
  import opened SessionStore
  import opened StoreAnswers

  // ----- counting ledger events

  function CountOf(events: seq<StoredEvent>, kind: EventKind): nat {
    if events == [] then 0
    else
      CountOf(events[..|events| - 1], kind)
      + if KindOf(events[|events| - 1].value.payload) == kind then 1 else 0
  }

  function AppliedDecisions(decisions: seq<Decision>): nat {
    if decisions == [] then 0
    else AppliedDecisions(decisions[..|decisions| - 1]) + if decisions[|decisions| - 1].applied then 1 else 0
  }

  lemma EventsExtend(events: seq<StoredEvent>, event: StoredEvent)
    ensures forall kind :: CountOf(events + [event], kind)
                           == CountOf(events, kind) + if KindOf(event.value.payload) == kind then 1 else 0
    ensures AppliedEvents(events + [event])
            == AppliedEvents(events) + if event.value.payload.TransitionApplied? then [event.value] else []
  {
    assert (events + [event])[..|events|] == events;
  }

  lemma DecisionsExtend(decisions: seq<Decision>, decision: Decision)
    ensures AppliedDecisions(decisions + [decision]) == AppliedDecisions(decisions) + if decision.applied then 1 else 0
  {
    assert (decisions + [decision])[..|decisions|] == decisions;
  }

  // ----- the invariant of one session

  function CurrentTask(rows: seq<Transition>): TaskRow {
    if rows == [] then TaskRow(Queued, 0, None)
    else
      var last := rows[|rows| - 1];
      TaskRow(last.target, |rows|, if last.target == Blocked then Some(last.source) else None)
  }

  predicate RowInPlace(codec: Codec, session: string, v: View, i: nat)
    requires i < |v.transitions|
  {
    var row := v.transitions[i];
    && row.fromVersion == i
    && row.toVersion == i + 1
    && IsSafeInteger(i + 1)
    && row.taskId == v.taskId
    && row.source == CurrentTask(v.transitions[..i]).status
    && (row.target == Blocked ==> row.source !in {Blocked, Completed})
    && RequestBound(codec, session, row)
  }

  /** The transition rows are the versions 1, 2, 3, ... and the lifecycle row is where they end. */
  ghost predicate HistoryInv(codec: Codec, session: string, v: View) {
    && (forall i {:trigger RowInPlace(codec, session, v, i)} ::
          0 <= i < |v.transitions| ==> RowInPlace(codec, session, v, i))
    && (forall i, j :: 0 <= i < j < |v.transitions| ==> v.transitions[i].id != v.transitions[j].id)
    && v.task == CurrentTask(v.transitions)
    && (v.endedAt.Some? <==> v.task.status == Completed)
  }

  /** The ledger is linked, starts with the session, and its applied events are the transition rows, in order. */
  ghost predicate LedgerInv(codec: Codec, v: View) {
    var applied := AppliedEvents(v.audit);
    && ChainValid(codec.hashing, v.audit)
    && v.audit != []
    && v.audit[0].value.payload == SessionStarted(v.taskId, Queued)
    && v.audit[0].value.stateVersion == 0
    && |applied| == |v.transitions|
    && forall i :: 0 <= i < |applied| ==>
         EventMatchesRow(applied[i], v.transitions[i]) && applied[i].payload.transitionId == v.transitions[i].id
  }

  /** Every row of every table has its ledger event, and the ledger has nothing else. */
  ghost predicate Conserved(v: View) {
    && v.task.stateVersion == |v.transitions|
    && CountOf(v.audit, AppliedKind) == |v.transitions|
    && AppliedDecisions(v.decisions) == |v.transitions|
    && CountOf(v.audit, GuardKind) == |v.decisions| + |v.conflicts|
    && CountOf(v.audit, GateKind) == |v.gates|
    && CountOf(v.audit, SignedGateKind) == |v.signedGates|
    && CountOf(v.audit, ReviewKind) == |v.reviews|
    && |v.audit| == 1 + |v.transitions| + |v.decisions| + |v.conflicts| + |v.gates| + |v.signedGates| + |v.reviews|
  }

  ghost predicate DecisionInv(v: View) {
    && (forall i, j :: 0 <= i < j < |v.decisions| ==> v.decisions[i].key != v.decisions[j].key)
    && (forall i :: 0 <= i < |v.conflicts| ==> FindDecision(v.decisions, v.conflicts[i].key).Some?)
    && (forall i, j :: 0 <= i < j < |v.conflicts| ==>
          (v.conflicts[i].key, v.conflicts[i].requestSha256, v.conflicts[i].requestJson)
          != (v.conflicts[j].key, v.conflicts[j].requestSha256, v.conflicts[j].requestJson))
  }

  predicate BindsPlanRow(row: Transition) {
    row.source == Framed && row.target == ProofReady
  }

  /** Evidence belongs to a bound plan, is ordered, and was appended at a version the session had reached. */
  ghost predicate EvidenceInv(v: View) {
    && (v.plan.Some? ==> exists i :: 0 <= i < |v.transitions| && BindsPlanRow(v.transitions[i]))
    && (v.gates != [] || v.signedGates != [] || v.reviews != [] ==> v.plan.Some?)
    && (forall r :: r in v.gates ==>
          0 < r.sequence && 0 <= r.stateVersion <= |v.transitions| && r.planSha256 == v.plan.value.sha256)
    && (forall r :: r in v.signedGates ==>
          0 < r.sequence && 0 <= r.stateVersion <= |v.transitions| && r.planSha256 == v.plan.value.sha256)
    && (forall r :: r in v.reviews ==>
          0 < r.sequence && 0 <= r.stateVersion <= |v.transitions| && r.planSha256 == v.plan.value.sha256)
    && Rows.Ascending(v.gates, GateSequence)
    && Rows.Ascending(v.signedGates, SignedGateSequence)
    && Rows.Ascending(v.reviews, ReviewSequence)
    && (forall i, j :: 0 <= i < j < |v.reviews| ==>
          v.reviews[i].pullRequestNumber == v.reviews[j].pullRequestNumber
          && v.reviews[i].observedAt <= v.reviews[j].observedAt
          && v.reviews[i].stateVersion <= v.reviews[j].stateVersion)
  }

  ghost predicate SessionInv(codec: Codec, session: string, v: View) {
    && HistoryInv(codec, session, v)
    && LedgerInv(codec, v)
    && Conserved(v)
    && DecisionInv(v)
    && EvidenceInv(v)
    && AnswerInv(v)
  }

  // ----- the reader accepts what the writer wrote

  lemma ChainAscends(hashing: Hashing, events: seq<StoredEvent>)
    requires ChainValid(hashing, events)
    ensures Rows.Ascending(events, SequenceOf)
    ensures forall i :: 0 <= i < |events| ==> events[i].value.sequence == i + 1
  {
    forall i | 0 <= i < |events| ensures events[i].value.sequence == i + 1 {
      assert Objection(hashing, events, i).None?;
    }
  }

  lemma {:induction false} FloorZeroCoversAll(rows: seq<Transition>)
    requires forall i :: 0 <= i < |rows| ==> rows[i].fromVersion >= 0
    ensures FromFloor(rows, 0) == rows
  {
    if rows != [] { FloorZeroCoversAll(rows[..|rows| - 1]); }
  }

  lemma {:induction false} LastWithOwnId(rows: seq<Transition>, i: nat)
    requires i < |rows| && forall j, k :: 0 <= j < k < |rows| ==> rows[j].id != rows[k].id
    ensures LastWithId(rows, rows[i].id) == Some(rows[i])
  {
    if i < |rows| - 1 { LastWithOwnId(rows[..|rows| - 1], i); }
  }

  lemma ReadOrderIsWriteOrder(codec: Codec, session: string, v: View)
    requires HistoryInv(codec, session, v) && ChainValid(codec.hashing, v.audit)
    ensures OrderBy(v.transitions, ToVersion) == v.transitions
    ensures OrderBy(v.audit, SequenceOf) == v.audit
  {
    forall i | 0 <= i < |v.transitions| ensures v.transitions[i].toVersion == i + 1 {
      assert RowInPlace(codec, session, v, i);
    }
    OrderByAscending(v.transitions, ToVersion);
    ChainAscends(codec.hashing, v.audit);
    OrderByAscending(v.audit, SequenceOf);
  }

  lemma RowsContinue(codec: Codec, session: string, v: View)
    requires HistoryInv(codec, session, v)
    ensures forall i :: 0 <= i < |v.transitions| ==> RowContinues(codec, session, v.transitions, i)
  {
    forall i | 0 <= i < |v.transitions| ensures RowContinues(codec, session, v.transitions, i) {
      assert RowInPlace(codec, session, v, i);
      if i > 0 { assert RowInPlace(codec, session, v, i - 1); }
    }
  }

  lemma LedgerNamesRows(codec: Codec, session: string, v: View)
    requires HistoryInv(codec, session, v) && LedgerInv(codec, v)
    ensures EventsHaveRows(v.transitions, AppliedEvents(v.audit))
  {
    var applied := AppliedEvents(v.audit);
    AppliedEventsAreApplied(v.audit);
    forall i | 0 <= i < |applied| ensures EventHasRow(v.transitions, applied[i]) {
      LastWithOwnId(v.transitions, i);
    }
  }

  lemma ProjectionHolds(codec: Codec, session: string, v: View)
    requires HistoryInv(codec, session, v)
    ensures FromFloor(v.transitions, 0) == v.transitions
    ensures v.transitions != [] ==> v.transitions[0].fromVersion == 0 && v.transitions[0].source == Queued
    ensures ProjectionMatches(v, v.transitions, 0, Queued)
  {
    forall i | 0 <= i < |v.transitions| ensures v.transitions[i].fromVersion >= 0 {
      assert RowInPlace(codec, session, v, i);
    }
    FloorZeroCoversAll(v.transitions);
    if v.transitions != [] {
      assert RowInPlace(codec, session, v, |v.transitions| - 1) && RowInPlace(codec, session, v, 0);
    }
  }

  lemma RowIsSound(codec: Codec, session: string, v: View)
    requires HistoryInv(codec, session, v)
    ensures !RowCorrupt(v)
  {
    if v.transitions != [] { assert RowInPlace(codec, session, v, |v.transitions| - 1); }
  }

  /** Agreement: a session that satisfies the invariant is accepted by the history reader and shows no corruption. */
  lemma ReaderAccepts(codec: Codec, session: string, v: View)
    requires HistoryInv(codec, session, v) && LedgerInv(codec, v)
    ensures AuthorityHolds(codec, session, v)
    ensures !RowCorrupt(v)
  {
    ReadOrderIsWriteOrder(codec, session, v);
    RowsContinue(codec, session, v);
    LedgerNamesRows(codec, session, v);
    ProjectionHolds(codec, session, v);
    RowIsSound(codec, session, v);
    assert Genesis(v.audit) == Some((0, Queued));
  }

  /** The phase the store derives is the phase of the targets in insertion order. */
  lemma PhaseOfInv(codec: Codec, session: string, v: View)
    requires SessionInv(codec, session, v)
    ensures GenesisState(v) == Some(Queued)
    ensures PhaseOf(v) == PostPr <==> exists i :: 0 <= i < |v.transitions| && v.transitions[i].target in POST_PR_STATES
  {
    hide OrderBy, HistoryInv, Conserved, DecisionInv, EvidenceInv, ChainValid;
    ReadOrderIsWriteOrder(codec, session, v);
    assert forall i :: 0 <= i < |v.transitions| ==> HistoryTargets(v)[i] == v.transitions[i].target;
  }

  // ----- each kind of append keeps the invariant of its session

  /** `event` is the next event of the session's ledger. */
  ghost predicate Follows(codec: Codec, v: View, event: StoredEvent, stateVersion: int, payload: AuditPayload) {
    && ChainValid(codec.hashing, v.audit + [event])
    && event.value.payload == payload
    && event.value.stateVersion == stateVersion
    && IsSafeInteger(stateVersion)
  }

  /** A ledger event that applies no transition leaves the history and its coverage alone. */
  lemma LedgerKeeps(codec: Codec, v: View, w: View, event: StoredEvent, stateVersion: int, payload: AuditPayload)
    requires LedgerInv(codec, v) && Follows(codec, v, event, stateVersion, payload) && !payload.TransitionApplied?
    requires w.taskId == v.taskId && w.transitions == v.transitions && w.audit == v.audit + [event]
    ensures LedgerInv(codec, w)
  {
    EventsExtend(v.audit, event);
  }

  lemma StateVersionOf(codec: Codec, session: string, v: View)
    requires HistoryInv(codec, session, v)
    ensures v.task.stateVersion == |v.transitions|
  {
  }

  lemma StatusNow(codec: Codec, session: string, v: View)
    requires HistoryInv(codec, session, v)
    ensures StatusAt(v.transitions, v.task.stateVersion) == Some(v.task.status)
  {
  }

  function WithDecision(v: View, decision: Decision, event: StoredEvent): View {
    v.(decisions := v.decisions + [decision], audit := v.audit + [event])
  }

  lemma DecisionKeeps(
    codec: Codec, session: string, v: View, decision: Decision, event: StoredEvent, stateVersion: int,
    payload: AuditPayload)
    requires SessionInv(codec, session, v)
    requires FindDecision(v.decisions, decision.key).None? && !decision.applied && IsFirstRefusal(decision.result)
    requires Follows(codec, v, event, stateVersion, payload) && payload.GuardDecisionMade?
    requires AnswerOf(payload) == Answer(decision.key, decision.requestSha256, false)
    ensures SessionInv(codec, session, WithDecision(v, decision, event))
  {
    hide HistoryInv, LedgerInv, FindDecision, AppliedDecisions, CountOf, AnswerInv;
    DecisionKeepsAnswers(v, WithDecision(v, decision, event), decision, event);
    var w := WithDecision(v, decision, event);
    LedgerKeeps(codec, v, w, event, stateVersion, payload);
    StateVersionOf(codec, session, v);
    EventsExtend(v.audit, event);
    DecisionsExtend(v.decisions, decision);
    FindDecisionAppend(v.decisions, [decision], decision.key);
    forall i | 0 <= i < |v.conflicts| ensures FindDecision(v.decisions + [decision], v.conflicts[i].key).Some? {
      FindDecisionAppend(v.decisions, [decision], v.conflicts[i].key);
    }
    HistoryFrame(codec, session, v, w);
  }

  /** The history half of the invariant reads only the lifecycle columns. */
  lemma HistoryFrame(codec: Codec, session: string, v: View, w: View)
    requires HistoryInv(codec, session, v)
    requires w.taskId == v.taskId && w.task == v.task && w.endedAt == v.endedAt && w.transitions == v.transitions
    ensures HistoryInv(codec, session, w)
  {
    forall i | 0 <= i < |w.transitions| ensures RowInPlace(codec, session, w, i) {
      assert RowInPlace(codec, session, v, i);
    }
  }

  function WithConflict(v: View, conflict: Conflict, event: StoredEvent): View {
    v.(conflicts := v.conflicts + [conflict], audit := v.audit + [event])
  }

  lemma ConflictKeeps(
    codec: Codec, session: string, v: View, conflict: Conflict, event: StoredEvent, stateVersion: int,
    payload: AuditPayload)
    requires SessionInv(codec, session, v)
    requires FindDecision(v.decisions, conflict.key).Some?
    requires FindConflict(v.conflicts, conflict.key, conflict.requestSha256, conflict.requestJson).None?
    requires NamesOwner(FindDecision(v.decisions, conflict.key), conflict)
    requires Follows(codec, v, event, stateVersion, payload) && payload.GuardDecisionMade?
    requires AnswerOf(payload) == Answer(conflict.key, conflict.requestSha256, false)
    ensures SessionInv(codec, session, WithConflict(v, conflict, event))
  {
    hide HistoryInv, LedgerInv, AnswerInv;
    ConflictKeepsAnswers(v, WithConflict(v, conflict, event), conflict, event);
    var w := WithConflict(v, conflict, event);
    LedgerKeeps(codec, v, w, event, stateVersion, payload);
    StateVersionOf(codec, session, v);
    EventsExtend(v.audit, event);
    FindConflictAppend(v.conflicts, [conflict], conflict.key, conflict.requestSha256, conflict.requestJson);
    HistoryFrame(codec, session, v, w);
  }

  function WithGate(v: View, receipt: GateReceipt, event: StoredEvent): View {
    v.(gates := v.gates + [receipt], audit := v.audit + [event])
  }

  lemma GateTaken(v: View, receipt: GateReceipt, event: StoredEvent)
    requires event.value.payload == GatePayload(receipt)
    requires ProducedIn(v.transitions, receipt.stateVersion, {Verifying})
    ensures TakesEvidence(v, WithGate(v, receipt, event), event.value.payload)
  {
    assert WithGate(v, receipt, event).gates == v.gates + [receipt];
  }

  /** The receipt was produced against the version and plan the session has now. */
  ghost predicate Timely(v: View, planSha256: string, stateVersion: int) {
    stateVersion == v.task.stateVersion && v.plan.Some? && v.plan.value.sha256 == planSha256
  }

  lemma GateKeeps(
    codec: Codec, session: string, v: View, receipt: GateReceipt, event: StoredEvent, payload: AuditPayload)
    requires SessionInv(codec, session, v) && Timely(v, receipt.planSha256, receipt.stateVersion)
    requires v.task.status in {Verifying}
    requires 0 < receipt.sequence && forall r :: r in v.gates ==> r.sequence < receipt.sequence
    requires Follows(codec, v, event, receipt.stateVersion, payload) && payload == GatePayload(receipt)
    ensures SessionInv(codec, session, WithGate(v, receipt, event))
  {
    hide HistoryInv, LedgerInv, AnswerInv, TakesEvidence;
    StatusNow(codec, session, v);
    GateTaken(v, receipt, event);
    EvidenceKeepsAnswers(v, WithGate(v, receipt, event), event);
    var w := WithGate(v, receipt, event);
    LedgerKeeps(codec, v, w, event, receipt.stateVersion, payload);
    StateVersionOf(codec, session, v);
    EventsExtend(v.audit, event);
    HistoryFrame(codec, session, v, w);
  }

  function WithSignedGate(v: View, receipt: SignedGateReceipt, event: StoredEvent): View {
    v.(signedGates := v.signedGates + [receipt], audit := v.audit + [event])
  }

  lemma SignedGateTaken(v: View, receipt: SignedGateReceipt, event: StoredEvent)
    requires event.value.payload == SignedGatePayload(receipt)
    requires ProducedIn(v.transitions, receipt.stateVersion, {Verifying})
    ensures TakesEvidence(v, WithSignedGate(v, receipt, event), event.value.payload)
  {
    assert WithSignedGate(v, receipt, event).signedGates == v.signedGates + [receipt];
  }

  lemma SignedGateKeeps(
    codec: Codec, session: string, v: View, receipt: SignedGateReceipt, event: StoredEvent, payload: AuditPayload)
    requires SessionInv(codec, session, v) && Timely(v, receipt.planSha256, receipt.stateVersion)
    requires v.task.status in {Verifying}
    requires 0 < receipt.sequence && forall r :: r in v.signedGates ==> r.sequence < receipt.sequence
    requires Follows(codec, v, event, receipt.stateVersion, payload) && payload == SignedGatePayload(receipt)
    ensures SessionInv(codec, session, WithSignedGate(v, receipt, event))
  {
    hide HistoryInv, LedgerInv, AnswerInv, TakesEvidence;
    StatusNow(codec, session, v);
    SignedGateTaken(v, receipt, event);
    EvidenceKeepsAnswers(v, WithSignedGate(v, receipt, event), event);
    var w := WithSignedGate(v, receipt, event);
    LedgerKeeps(codec, v, w, event, receipt.stateVersion, payload);
    StateVersionOf(codec, session, v);
    EventsExtend(v.audit, event);
    HistoryFrame(codec, session, v, w);
  }

  function WithReview(v: View, receipt: ReviewReceipt, event: StoredEvent): View {
    v.(reviews := v.reviews + [receipt], audit := v.audit + [event])
  }

  lemma ReviewTaken(v: View, receipt: ReviewReceipt, event: StoredEvent)
    requires event.value.payload == ReviewPayload(receipt)
    requires ProducedIn(v.transitions, receipt.stateVersion, {Reviewing, ReadyForHuman})
    ensures TakesEvidence(v, WithReview(v, receipt, event), event.value.payload)
  {
    assert WithReview(v, receipt, event).reviews == v.reviews + [receipt];
  }

  lemma ReviewKeepsEvidence(codec: Codec, session: string, v: View, receipt: ReviewReceipt, event: StoredEvent)
    requires SessionInv(codec, session, v) && Timely(v, receipt.planSha256, receipt.stateVersion)
    requires 0 < receipt.sequence && forall r :: r in v.reviews ==> r.sequence < receipt.sequence
    requires ReviewAdvances(v.reviews, receipt)
    ensures EvidenceInv(WithReview(v, receipt, event))
  {
    hide LedgerInv, Conserved, DecisionInv, AnswerInv, HistoryInv, BindsPlanRow;
    StateVersionOf(codec, session, v);
    assert forall i :: 0 <= i < |v.reviews| ==> v.reviews[i] in v.reviews;
  }

  lemma ReviewKeeps(
    codec: Codec, session: string, v: View, receipt: ReviewReceipt, event: StoredEvent, payload: AuditPayload)
    requires SessionInv(codec, session, v) && Timely(v, receipt.planSha256, receipt.stateVersion)
    requires v.task.status in {Reviewing, ReadyForHuman}
    requires 0 < receipt.sequence && forall r :: r in v.reviews ==> r.sequence < receipt.sequence
    requires ReviewAdvances(v.reviews, receipt)
    requires Follows(codec, v, event, receipt.stateVersion, payload) && payload == ReviewPayload(receipt)
    ensures SessionInv(codec, session, WithReview(v, receipt, event))
  {
    hide HistoryInv, LedgerInv, AnswerInv, TakesEvidence, EvidenceInv;
    ReviewKeepsEvidence(codec, session, v, receipt, event);
    StatusNow(codec, session, v);
    ReviewTaken(v, receipt, event);
    EvidenceKeepsAnswers(v, WithReview(v, receipt, event), event);
    var w := WithReview(v, receipt, event);
    LedgerKeeps(codec, v, w, event, receipt.stateVersion, payload);
    StateVersionOf(codec, session, v);
    EventsExtend(v.audit, event);
    HistoryFrame(codec, session, v, w);
  }

  // ----- an admitted transition keeps the invariant of its session

  function WithAdmission(
    codec: Codec, v: View, call: TransitionCall, supply: Supply, decided: StoredEvent, applied: StoredEvent): View
  {
    View(
      v.taskId, AppliedTask(v, call),
      if call.request.target == Completed then Some(supply.now) else v.endedAt,
      v.transitions + [AppliedRow(codec, v, call, supply)],
      v.decisions + [AppliedDecision(codec, v, call, supply)],
      v.conflicts,
      if call.boundPlan.Some? then call.boundPlan else v.plan,
      v.gates, v.signedGates, v.reviews, v.audit + [decided, applied])
  }

  /** What the transaction has established when it admits a transition. */
  ghost predicate Admissible(codec: Codec, session: string, v: View, call: TransitionCall) {
    && session == call.request.sessionId
    && FindDecision(v.decisions, call.key).None?
    && JudgeFresh(v, call).Admit?
    && (call.boundPlan.Some? ==> v.plan.None?)
  }

  lemma AdmittedRowInPlace(codec: Codec, session: string, v: View, call: TransitionCall, supply: Supply)
    requires Lawful(codec) && HistoryInv(codec, session, v) && Admissible(codec, session, v, call)
    ensures RequestBound(codec, session, AppliedRow(codec, v, call, supply))
    ensures call.request.target == Blocked ==> v.task.status !in {Blocked, Completed}
    ensures v.task.status != Completed
  {
    var request := call.request;
    assert TransitionRequest(session, request.target, v.task.stateVersion, request.actor, request.input) == request;
  }

  lemma AdmissionKeepsHistory(
    codec: Codec, session: string, v: View, call: TransitionCall, supply: Supply,
    decided: StoredEvent, applied: StoredEvent)
    requires Lawful(codec) && HistoryInv(codec, session, v) && Admissible(codec, session, v, call)
    requires forall i :: 0 <= i < |v.transitions| ==> v.transitions[i].id != supply.transitionId
    requires IsSafeInteger(v.task.stateVersion + 1)
    ensures HistoryInv(codec, session, WithAdmission(codec, v, call, supply, decided, applied))
  {
    var w := WithAdmission(codec, v, call, supply, decided, applied);
    var n := |v.transitions|;
    AdmittedRowInPlace(codec, session, v, call, supply);
    assert w.transitions[..n] == v.transitions;
    forall i | 0 <= i < |w.transitions| ensures RowInPlace(codec, session, w, i) {
      if i < n {
        assert RowInPlace(codec, session, v, i);
        assert w.transitions[..i] == v.transitions[..i];
      }
    }
  }

  lemma AdmissionKeepsLedger(
    codec: Codec, session: string, v: View, call: TransitionCall, supply: Supply,
    decided: StoredEvent, applied: StoredEvent)
    requires LedgerInv(codec, v)
    requires ChainValid(codec.hashing, v.audit + [decided, applied])
    requires KindOf(decided.value.payload) == GuardKind
    requires applied.value.payload == AppliedEvent(codec, v, call, supply)
    requires applied.value.stateVersion == v.task.stateVersion + 1
    ensures LedgerInv(codec, WithAdmission(codec, v, call, supply, decided, applied))
  {
    var w := WithAdmission(codec, v, call, supply, decided, applied);
    assert w.audit == (v.audit + [decided]) + [applied];
    EventsExtend(v.audit, decided);
    EventsExtend(v.audit + [decided], applied);
  }

  lemma AdmissionKeepsCounts(
    codec: Codec, session: string, v: View, call: TransitionCall, supply: Supply,
    decided: StoredEvent, applied: StoredEvent)
    requires Conserved(v) && v.task.stateVersion == |v.transitions|
    requires KindOf(decided.value.payload) == GuardKind && KindOf(applied.value.payload) == AppliedKind
    ensures Conserved(WithAdmission(codec, v, call, supply, decided, applied))
  {
    var w := WithAdmission(codec, v, call, supply, decided, applied);
    assert w.audit == (v.audit + [decided]) + [applied];
    EventsExtend(v.audit, decided);
    EventsExtend(v.audit + [decided], applied);
    DecisionsExtend(v.decisions, w.decisions[|v.decisions|]);
  }

  lemma AdmissionKeepsDecisions(
    codec: Codec, session: string, v: View, call: TransitionCall, supply: Supply,
    decided: StoredEvent, applied: StoredEvent)
    requires DecisionInv(v) && FindDecision(v.decisions, call.key).None?
    ensures DecisionInv(WithAdmission(codec, v, call, supply, decided, applied))
  {
    var w := WithAdmission(codec, v, call, supply, decided, applied);
    var more := [w.decisions[|v.decisions|]];
    FindDecisionAppend(v.decisions, more, call.key);
    forall i | 0 <= i < |v.conflicts| ensures FindDecision(w.decisions, v.conflicts[i].key).Some? {
      FindDecisionAppend(v.decisions, more, v.conflicts[i].key);
    }
  }

  lemma AdmissionKeepsEvidence(
    codec: Codec, session: string, v: View, call: TransitionCall, supply: Supply,
    decided: StoredEvent, applied: StoredEvent)
    requires EvidenceInv(v) && Admissible(codec, session, v, call)
    ensures EvidenceInv(WithAdmission(codec, v, call, supply, decided, applied))
  {
    var w := WithAdmission(codec, v, call, supply, decided, applied);
    if call.boundPlan.Some? {
      assert BindsPlanRow(w.transitions[|v.transitions|]);
    } else if v.plan.Some? {
      var i :| 0 <= i < |v.transitions| && BindsPlanRow(v.transitions[i]);
      assert w.transitions[i] == v.transitions[i];
    }
  }

  lemma AdmissionReports(codec: Codec, session: string, v: View, call: TransitionCall, supply: Supply)
    requires HistoryInv(codec, session, v) && Admissible(codec, session, v, call)
    ensures Reports(AppliedDecision(codec, v, call, supply), AppliedRow(codec, v, call, supply))
    ensures FindDecision(v.decisions, call.key).None? && v.task.stateVersion == |v.transitions|
  {
    hide JudgeFresh;
  }

  lemma AdmissionKeeps(
    codec: Codec, session: string, v: View, call: TransitionCall, supply: Supply,
    decided: StoredEvent, applied: StoredEvent)
    requires Lawful(codec) && SessionInv(codec, session, v) && Admissible(codec, session, v, call)
    requires forall i :: 0 <= i < |v.transitions| ==> v.transitions[i].id != supply.transitionId
    requires IsSafeInteger(v.task.stateVersion + 1)
    requires ChainValid(codec.hashing, v.audit + [decided, applied])
    requires decided.value.payload.GuardDecisionMade?
    requires AnswerOf(decided.value.payload) == Answer(call.key, RequestSha256(codec, call), true)
    requires applied.value.payload == AppliedEvent(codec, v, call, supply)
    requires applied.value.stateVersion == v.task.stateVersion + 1
    ensures SessionInv(codec, session, WithAdmission(codec, v, call, supply, decided, applied))
  {
    hide HistoryInv, LedgerInv, Conserved, DecisionInv, EvidenceInv, AnswerInv, Reports, ChainValid, Admissible;
    AdmissionReports(codec, session, v, call, supply);
    AdmissionKeepsAnswers(
      v, WithAdmission(codec, v, call, supply, decided, applied), AppliedDecision(codec, v, call, supply),
      AppliedRow(codec, v, call, supply), decided, applied);
    AdmissionKeepsHistory(codec, session, v, call, supply, decided, applied);
    AdmissionKeepsLedger(codec, session, v, call, supply, decided, applied);
    AdmissionKeepsCounts(codec, session, v, call, supply, decided, applied);
    AdmissionKeepsDecisions(codec, session, v, call, supply, decided, applied);
    AdmissionKeepsEvidence(codec, session, v, call, supply, decided, applied);
  }
}

/**
 * What the stored decisions and conflicts say, and what the ledger says of every row: a decision reports the
 * transition it applied or the refusal it made, a conflict names the request that owns its key, and each ledger event
 * names its row.
 */
module StoreAnswers {
  import opened Options
  import opened Lifecycle
  import opened ProofEvidence
  import opened AuditLedger
  import opened StoreTables
  import opened SessionStore

  // ----- ledger events by kind

  datatype EventKind = GenesisKind | GateKind | SignedGateKind | ReviewKind | GuardKind | AppliedKind

  function KindOf(payload: AuditPayload): EventKind {
    match payload
    case SessionStarted(_, _) => GenesisKind
    case AuditActivated(_, _) => GenesisKind
    case ProofReceiptRecorded(_, _) => GateKind
    case SignedProofReceiptImported(_, _, _) => SignedGateKind
    case SignedReviewReceiptImported(_, _, _) => ReviewKind
    case GuardDecisionMade(_, _, _, _, _) => GuardKind
    case TransitionApplied(_, _, _, _, _, _, _) => AppliedKind
  }

  function PayloadsOf(events: seq<StoredEvent>, kind: EventKind): seq<AuditPayload> {
    if events == [] then []
    else
      var last := events[|events| - 1].value.payload;
      PayloadsOf(events[..|events| - 1], kind) + if KindOf(last) == kind then [last] else []
  }

  lemma PayloadsExtend(events: seq<StoredEvent>, event: StoredEvent)
    ensures forall kind :: PayloadsOf(events + [event], kind)
                           == PayloadsOf(events, kind)
                              + if KindOf(event.value.payload) == kind then [event.value.payload] else []
  {
    assert (events + [event])[..|events|] == events;
  }

  // ----- every evidence row has its event, in order

  function GatePayload(receipt: GateReceipt): AuditPayload {
    ProofReceiptRecorded(receipt.id, receipt.gateId)
  }

  function SignedGatePayload(receipt: SignedGateReceipt): AuditPayload {
    SignedProofReceiptImported(receipt.id, receipt.gateId, receipt.packageSha256)
  }

  function ReviewPayload(receipt: ReviewReceipt): AuditPayload {
    SignedReviewReceiptImported(receipt.id, receipt.packageSha256, receipt.pullRequestNumber)
  }

  function Each<T, U>(rows: seq<T>, f: T -> U): (mapped: seq<U>)
    ensures |mapped| == |rows| && forall i :: 0 <= i < |rows| ==> mapped[i] == f(rows[i])
  {
    seq(|rows|, i requires 0 <= i < |rows| => f(rows[i]))
  }

  lemma EachExtend<T, U>(rows: seq<T>, row: T, f: T -> U)
    ensures Each(rows + [row], f) == Each(rows, f) + [f(row)]
  {
  }

  /** The ledger lists the receipts, the packages and the snapshots, each in the order of its table. */
  ghost predicate EvidenceNamed(v: View) {
    && PayloadsOf(v.audit, GateKind) == Each(v.gates, GatePayload)
    && PayloadsOf(v.audit, SignedGateKind) == Each(v.signedGates, SignedGatePayload)
    && PayloadsOf(v.audit, ReviewKind) == Each(v.reviews, ReviewPayload)
  }

  // ----- every evidence row was produced where it counts

  /** Where the session stood at that version. */
  function StatusAt(rows: seq<Transition>, version: int): Option<TaskStatus> {
    if version == 0 then Some(Queued)
    else if 0 < version <= |rows| then Some(rows[version - 1].target)
    else None
  }

  predicate ProducedIn(rows: seq<Transition>, version: int, states: set<TaskStatus>) {
    StatusAt(rows, version).Some? && StatusAt(rows, version).value in states
  }

  /** Proof is taken while verifying; snapshots while the work is under review or waits for a person. */
  ghost predicate EvidenceDated(v: View) {
    && (forall r :: r in v.gates ==> ProducedIn(v.transitions, r.stateVersion, {Verifying}))
    && (forall r :: r in v.signedGates ==> ProducedIn(v.transitions, r.stateVersion, {Verifying}))
    && (forall r :: r in v.reviews ==> ProducedIn(v.transitions, r.stateVersion, {Reviewing, ReadyForHuman}))
  }

  /** What was produced somewhere stays so. */
  lemma DatesStay(v: View, w: View)
    requires EvidenceDated(v) && v.transitions <= w.transitions
    requires w.gates == v.gates && w.signedGates == v.signedGates && w.reviews == v.reviews
    ensures EvidenceDated(w)
  {
  }

  // ----- every answer has its event

  /** What a guard event says of the answer it belongs to. */
  datatype Answer = Answer(key: string, requestSha256: string, allowed: bool)

  function AnswerOf(payload: AuditPayload): Answer
    requires payload.GuardDecisionMade?
  {
    Answer(payload.idempotencyKey, payload.decisionRequestSha256, payload.allowed)
  }

  function AnswersNamed(payloads: seq<AuditPayload>): multiset<Answer> {
    if payloads == [] then multiset{}
    else
      var last := payloads[|payloads| - 1];
      AnswersNamed(payloads[..|payloads| - 1])
      + if last.GuardDecisionMade? then multiset{AnswerOf(last)} else multiset{}
  }

  function AnswersOfDecisions(decisions: seq<Decision>): multiset<Answer> {
    if decisions == [] then multiset{}
    else
      var last := decisions[|decisions| - 1];
      AnswersOfDecisions(decisions[..|decisions| - 1]) + multiset{Answer(last.key, last.requestSha256, last.applied)}
  }

  function AnswersOfConflicts(conflicts: seq<Conflict>): multiset<Answer> {
    if conflicts == [] then multiset{}
    else
      var last := conflicts[|conflicts| - 1];
      AnswersOfConflicts(conflicts[..|conflicts| - 1]) + multiset{Answer(last.key, last.requestSha256, false)}
  }

  /** The guard events are the decisions and the conflicts, no more and no fewer: who asked, and what came of it. */
  ghost predicate AnswersAreNamed(v: View) {
    AnswersNamed(PayloadsOf(v.audit, GuardKind)) == AnswersOfDecisions(v.decisions) + AnswersOfConflicts(v.conflicts)
  }

  lemma AnswersNamedExtend(payloads: seq<AuditPayload>, payload: AuditPayload)
    requires payload.GuardDecisionMade?
    ensures AnswersNamed(payloads + [payload]) == AnswersNamed(payloads) + multiset{AnswerOf(payload)}
  {
    assert (payloads + [payload])[..|payloads|] == payloads;
  }

  lemma AnswersOfDecisionsExtend(decisions: seq<Decision>, decision: Decision)
    ensures AnswersOfDecisions(decisions + [decision])
            == AnswersOfDecisions(decisions) + multiset{Answer(decision.key, decision.requestSha256, decision.applied)}
  {
    assert (decisions + [decision])[..|decisions|] == decisions;
  }

  lemma AnswersOfConflictsExtend(conflicts: seq<Conflict>, conflict: Conflict)
    ensures AnswersOfConflicts(conflicts + [conflict])
            == AnswersOfConflicts(conflicts) + multiset{Answer(conflict.key, conflict.requestSha256, false)}
  {
    assert (conflicts + [conflict])[..|conflicts|] == conflicts;
  }

  // ----- what the answers say

  /** The success that was answered is the transition that was stored, for this very request. */
  predicate Reports(decision: Decision, row: Transition) {
    && decision.requestSha256 == row.requestSha256
    && decision.result
       == Succeeded(
            row.id, row.source, row.target, row.fromVersion, row.toVersion,
            if row.target == Blocked then Some(row.source) else None,
            if row.target == Completed then Some(row.createdAt) else None)
  }

  /** A first delivery is refused for its version, by the graph, or by a guard. */
  predicate IsFirstRefusal(result: TransitionResult) {
    && result.Refusal?
    && (result.error.StateVersionConflict? || result.error.TransitionNotAllowed? || result.error.TransitionGuardFailed?)
  }

  function AppliedOf(decisions: seq<Decision>): seq<Decision> {
    if decisions == [] then []
    else
      var last := decisions[|decisions| - 1];
      AppliedOf(decisions[..|decisions| - 1]) + if last.applied then [last] else []
  }

  lemma AppliedOfExtend(decisions: seq<Decision>, decision: Decision)
    ensures AppliedOf(decisions + [decision]) == AppliedOf(decisions) + if decision.applied then [decision] else []
  {
    assert (decisions + [decision])[..|decisions|] == decisions;
  }

  /** The applied decisions report the transitions one by one; every other decision is a first refusal. */
  ghost predicate DecisionsReport(v: View) {
    && |AppliedOf(v.decisions)| == |v.transitions|
    && (forall i :: 0 <= i < |v.transitions| ==> Reports(AppliedOf(v.decisions)[i], v.transitions[i]))
    && (forall i :: 0 <= i < |v.decisions| && !v.decisions[i].applied ==> IsFirstRefusal(v.decisions[i].result))
  }

  /** The key belongs to another request, and the refusal names that request's digest. */
  predicate NamesOwner(owner: Option<Decision>, conflict: Conflict) {
    && owner.Some?
    && (conflict.requestSha256, conflict.requestJson) != (owner.value.requestSha256, owner.value.requestJson)
    && conflict.result == Refusal(IdempotencyConflict(owner.value.requestSha256))
  }

  ghost predicate ConflictsNameOwners(v: View) {
    forall i :: 0 <= i < |v.conflicts| ==> NamesOwner(FindDecision(v.decisions, v.conflicts[i].key), v.conflicts[i])
  }

  ghost predicate AnswerInv(v: View) {
    EvidenceNamed(v) && EvidenceDated(v) && AnswersAreNamed(v) && DecisionsReport(v) && ConflictsNameOwners(v)
  }

  // ----- finding answers

  lemma {:induction false} FindDecisionAppend(decisions: seq<Decision>, more: seq<Decision>, key: string)
    ensures FindDecision(decisions, key).Some? ==>
              FindDecision(decisions + more, key) == FindDecision(decisions, key)
    ensures FindDecision(decisions, key).None? ==> FindDecision(decisions + more, key) == FindDecision(more, key)
    ensures FindDecision(decisions, key).None? <==> forall i :: 0 <= i < |decisions| ==> decisions[i].key != key
    ensures FindDecision(decisions, key).Some? ==>
              FindDecision(decisions, key).value in decisions && FindDecision(decisions, key).value.key == key
  {
    if decisions == [] {
      assert decisions + more == more;
    } else {
      FindDecisionAppend(decisions[1..], more, key);
      assert (decisions + more)[1..] == decisions[1..] + more;
    }
  }

  lemma {:induction false} FindConflictAppend(
    conflicts: seq<Conflict>, more: seq<Conflict>, key: string, sha256: string, json: string)
    ensures FindConflict(conflicts, key, sha256, json).Some? ==>
              FindConflict(conflicts + more, key, sha256, json) == FindConflict(conflicts, key, sha256, json)
    ensures FindConflict(conflicts, key, sha256, json).None? ==>
              FindConflict(conflicts + more, key, sha256, json) == FindConflict(more, key, sha256, json)
    ensures FindConflict(conflicts, key, sha256, json).None?
            <==> forall i :: 0 <= i < |conflicts| ==>
                   (conflicts[i].key, conflicts[i].requestSha256, conflicts[i].requestJson) != (key, sha256, json)
    ensures FindConflict(conflicts, key, sha256, json).Some? ==>
              var found := FindConflict(conflicts, key, sha256, json).value;
              found in conflicts && found.key == key
  {
    if conflicts == [] {
      assert conflicts + more == more;
    } else {
      FindConflictAppend(conflicts[1..], more, key, sha256, json);
      assert (conflicts + more)[1..] == conflicts[1..] + more;
    }
  }

  // ----- each kind of append keeps the answers

  lemma NamesStay(v: View, w: View, more: seq<Decision>)
    requires ConflictsNameOwners(v) && w.decisions == v.decisions + more && w.conflicts == v.conflicts
    ensures ConflictsNameOwners(w)
  {
    forall i | 0 <= i < |w.conflicts|
      ensures NamesOwner(FindDecision(w.decisions, w.conflicts[i].key), w.conflicts[i])
    {
      FindDecisionAppend(v.decisions, more, v.conflicts[i].key);
    }
  }

  /** An event of another kind leaves the evidence named as it was. */
  lemma EvidenceStays(v: View, w: View, event: StoredEvent)
    requires EvidenceNamed(v) && w.audit == v.audit + [event]
    requires KindOf(event.value.payload) in {GuardKind, AppliedKind}
    requires w.gates == v.gates && w.signedGates == v.signedGates && w.reviews == v.reviews
    ensures EvidenceNamed(w)
  {
    PayloadsExtend(v.audit, event);
  }

  lemma GuardIsNamed(v: View, event: StoredEvent)
    requires event.value.payload.GuardDecisionMade?
    ensures AnswersNamed(PayloadsOf(v.audit + [event], GuardKind))
            == AnswersNamed(PayloadsOf(v.audit, GuardKind)) + multiset{AnswerOf(event.value.payload)}
  {
    PayloadsExtend(v.audit, event);
    AnswersNamedExtend(PayloadsOf(v.audit, GuardKind), event.value.payload);
  }

  lemma RefusalReported(v: View, w: View, decision: Decision)
    requires DecisionsReport(v) && !decision.applied && IsFirstRefusal(decision.result)
    requires w.decisions == v.decisions + [decision] && w.transitions == v.transitions
    ensures DecisionsReport(w)
  {
    hide Reports, IsFirstRefusal;
    AppliedOfExtend(v.decisions, decision);
  }

  lemma TransitionReported(v: View, w: View, decision: Decision, row: Transition)
    requires DecisionsReport(v) && decision.applied && Reports(decision, row)
    requires w.decisions == v.decisions + [decision] && w.transitions == v.transitions + [row]
    ensures DecisionsReport(w)
  {
    hide Reports, IsFirstRefusal;
    AppliedOfExtend(v.decisions, decision);
  }

  /** Reports and names depend on nothing else. */
  lemma AnswersFrame(v: View, w: View)
    requires w.decisions == v.decisions
    ensures DecisionsReport(v) && w.transitions == v.transitions ==> DecisionsReport(w)
    ensures ConflictsNameOwners(v) && w.conflicts == v.conflicts ==> ConflictsNameOwners(w)
  {
    hide Reports, IsFirstRefusal, FindDecision, NamesOwner;
  }

  lemma ConflictNamed(v: View, w: View, conflict: Conflict)
    requires ConflictsNameOwners(v) && NamesOwner(FindDecision(v.decisions, conflict.key), conflict)
    requires w.decisions == v.decisions && w.conflicts == v.conflicts + [conflict]
    ensures ConflictsNameOwners(w)
  {
    hide NamesOwner, FindDecision;
  }

  lemma DecisionKeepsAnswers(v: View, w: View, decision: Decision, event: StoredEvent)
    requires AnswerInv(v) && FindDecision(v.decisions, decision.key).None?
    requires !decision.applied && IsFirstRefusal(decision.result)
    requires event.value.payload.GuardDecisionMade?
    requires AnswerOf(event.value.payload) == Answer(decision.key, decision.requestSha256, false)
    requires w == v.(decisions := v.decisions + [decision], audit := v.audit + [event])
    ensures AnswerInv(w)
  {
    hide EvidenceNamed, EvidenceDated, DecisionsReport, ConflictsNameOwners, PayloadsOf, FindDecision, IsFirstRefusal;
    EvidenceStays(v, w, event);
    DatesStay(v, w);
    GuardIsNamed(v, event);
    AnswersOfDecisionsExtend(v.decisions, decision);
    RefusalReported(v, w, decision);
    NamesStay(v, w, [decision]);
  }

  lemma ConflictKeepsAnswers(v: View, w: View, conflict: Conflict, event: StoredEvent)
    requires AnswerInv(v) && NamesOwner(FindDecision(v.decisions, conflict.key), conflict)
    requires event.value.payload.GuardDecisionMade?
    requires AnswerOf(event.value.payload) == Answer(conflict.key, conflict.requestSha256, false)
    requires w == v.(conflicts := v.conflicts + [conflict], audit := v.audit + [event])
    ensures AnswerInv(w)
  {
    hide EvidenceNamed, EvidenceDated, DecisionsReport, ConflictsNameOwners, PayloadsOf, FindDecision, NamesOwner;
    EvidenceStays(v, w, event);
    DatesStay(v, w);
    GuardIsNamed(v, event);
    AnswersOfConflictsExtend(v.conflicts, conflict);
    AnswersFrame(v, w);
    ConflictNamed(v, w, conflict);
  }

  /** One evidence row, and the ledger event that names it. */
  ghost predicate TakesEvidence(v: View, w: View, payload: AuditPayload) {
    match payload
    case ProofReceiptRecorded(_, _) =>
      && w.signedGates == v.signedGates && w.reviews == v.reviews
      && exists row :: w.gates == v.gates + [row] && payload == GatePayload(row)
                       && ProducedIn(v.transitions, row.stateVersion, {Verifying})
    case SignedProofReceiptImported(_, _, _) =>
      && w.gates == v.gates && w.reviews == v.reviews
      && exists row :: w.signedGates == v.signedGates + [row] && payload == SignedGatePayload(row)
                       && ProducedIn(v.transitions, row.stateVersion, {Verifying})
    case SignedReviewReceiptImported(_, _, _) =>
      && w.gates == v.gates && w.signedGates == v.signedGates
      && exists row :: w.reviews == v.reviews + [row] && payload == ReviewPayload(row)
                       && ProducedIn(v.transitions, row.stateVersion, {Reviewing, ReadyForHuman})
    case _ => false
  }

  lemma EvidenceIsNamed(v: View, w: View, event: StoredEvent)
    requires EvidenceNamed(v) && w.audit == v.audit + [event] && TakesEvidence(v, w, event.value.payload)
    ensures EvidenceNamed(w) && PayloadsOf(w.audit, GuardKind) == PayloadsOf(v.audit, GuardKind)
  {
    PayloadsExtend(v.audit, event);
    var payload := event.value.payload;
    match payload
    case ProofReceiptRecorded(_, _) =>
      var row :| w.gates == v.gates + [row] && payload == GatePayload(row);
      EachExtend(v.gates, row, GatePayload);
    case SignedProofReceiptImported(_, _, _) =>
      var row :| w.signedGates == v.signedGates + [row] && payload == SignedGatePayload(row);
      EachExtend(v.signedGates, row, SignedGatePayload);
    case SignedReviewReceiptImported(_, _, _) =>
      var row :| w.reviews == v.reviews + [row] && payload == ReviewPayload(row);
      EachExtend(v.reviews, row, ReviewPayload);
  }

  lemma EvidenceIsDated(v: View, w: View, event: StoredEvent)
    requires EvidenceDated(v) && w.transitions == v.transitions && TakesEvidence(v, w, event.value.payload)
    ensures EvidenceDated(w)
  {
    hide ProducedIn;
  }

  lemma EvidenceKeepsAnswers(v: View, w: View, event: StoredEvent)
    requires AnswerInv(v) && w.audit == v.audit + [event] && TakesEvidence(v, w, event.value.payload)
    requires w.transitions == v.transitions && w.decisions == v.decisions && w.conflicts == v.conflicts
    ensures AnswerInv(w)
  {
    hide EvidenceNamed, EvidenceDated, DecisionsReport, ConflictsNameOwners, PayloadsOf, TakesEvidence;
    EvidenceIsNamed(v, w, event);
    EvidenceIsDated(v, w, event);
    AnswersFrame(v, w);
  }

  lemma AdmissionKeepsAnswers(
    v: View, w: View, decision: Decision, row: Transition, decided: StoredEvent, applied: StoredEvent)
    requires AnswerInv(v) && FindDecision(v.decisions, decision.key).None?
    requires decision.applied && Reports(decision, row)
    requires decided.value.payload.GuardDecisionMade? && KindOf(applied.value.payload) == AppliedKind
    requires AnswerOf(decided.value.payload) == Answer(decision.key, decision.requestSha256, true)
    requires w.decisions == v.decisions + [decision] && w.transitions == v.transitions + [row]
    requires w.conflicts == v.conflicts && w.audit == v.audit + [decided, applied]
    requires w.gates == v.gates && w.signedGates == v.signedGates && w.reviews == v.reviews
    ensures AnswerInv(w)
  {
    hide EvidenceNamed, EvidenceDated, DecisionsReport, ConflictsNameOwners, PayloadsOf, FindDecision, Reports;
    var between := v.(audit := v.audit + [decided]);
    assert w.audit == between.audit + [applied];
    EvidenceStays(v, between, decided);
    EvidenceStays(between, w, applied);
    DatesStay(v, w);
    GuardIsNamed(v, decided);
    PayloadsExtend(between.audit, applied);
    assert PayloadsOf(w.audit, GuardKind) == PayloadsOf(between.audit, GuardKind);
    AnswersOfDecisionsExtend(v.decisions, decision);
    TransitionReported(v, w, decision, row);
    NamesStay(v, w, [decision]);
  }

  lemma NothingAnswered(v: View, event: StoredEvent)
    requires v.audit == [event] && KindOf(event.value.payload) == GenesisKind
    requires v.transitions == [] && v.decisions == [] && v.conflicts == []
    requires v.gates == [] && v.signedGates == [] && v.reviews == []
    ensures AnswerInv(v)
  {
    PayloadsExtend([], event);
    assert [] + [event] == v.audit;
  }
}

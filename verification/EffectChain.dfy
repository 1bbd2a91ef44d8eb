/**
 * The effect contract of src/domain/gaap-effects.ts: signed request/result pairs against the execution ledger. Digests
 * of requests are a parameter.
 */
module EffectChain {
  import opened Options
  import opened JsonValues

  datatype Subject = Subject(digest: string, kind: string, locator: string)

  datatype Usage = Usage(costMicros: int, elapsedMs: int, modelTokens: int, toolCalls: int)

  datatype ExecutionStatus = Executed | Failing | Interrupted | UnknownOutcome | Denied | AwaitingAuthority

  datatype Gate = Permission | ToolTrust | Runtime | Workflow

  datatype Decided = Allow | Ask | Block

  datatype EffectClass = Observing | Mutating

  datatype Evidence =
    | SubjectObservation
    | CapabilitySchema
    | ExecutorEvidence
    | SandboxEvidence
    | UsageEvidence
    | FailureEvidence
    | InterruptionEvidence
    | UnknownOutcomeEvidence
    | MutationEvidence
    | ArtifactEvidence
    | ExitEvidence

  datatype Decision = Decision(id: string, effect: string, gate: Gate, subject: string, outcome: Decided, code: string)

  datatype LedgerEvent =
    | DecisionEvent(sequence: int, decision: Decision)
    | ExecutionEvent(sequence: int, effect: string, action: string, capability: string, decisionId: string,
                     results: seq<string>)
    | MutationEvent(sequence: int, effect: string, before: string, after: string)
    | OtherEvent(sequence: int)

  datatype EffectRequest = EffectRequest(
    id: string, sequence: int, subject: Subject, capability: string, toolSchema: string, sandbox: string,
    effectClass: EffectClass, isProcess: bool)

  datatype EffectResult = EffectResult(
    status: ExecutionStatus, reason: Option<string>, before: Subject, after: Option<Subject>, toolSchema: string,
    exit: Option<int>, executor: Option<string>, sandbox: Option<string>, usage: Usage, decision: Decision,
    evidence: seq<Evidence>, digest: string)

  datatype Effect = Effect(request: EffectRequest, result: EffectResult)

  datatype Statement = Statement(
    subject: Subject, events: seq<LedgerEvent>, effects: seq<Effect>, resultingSubject: string, usage: Usage,
    completed: bool)

  /** What identifies a request: its canonical digest. */
  type Digesting = EffectRequest -> string

  // ----- the effects the ledger knows about

  const COMPLETION_CODES :=
    {"workflow.completion_authorized", "workflow.mutation_not_authorized", "workflow.verification_failed"}

  /** A completion decision names its subject as its effect; it stands for no effect of its own. */
  predicate IsCompletion(d: Decision) {
    d.gate == Workflow && d.effect == d.subject && d.code in COMPLETION_CODES
  }

  function Decisions(events: seq<LedgerEvent>): seq<Decision> {
    if events == [] then []
    else
      var last := events[|events| - 1];
      Decisions(events[..|events| - 1]) + if last.DecisionEvent? then [last.decision] else []
  }

  /** The protected effects, in the order the ledger first mentions them. */
  function LedgerOrder(decisions: seq<Decision>): seq<string> {
    if decisions == [] then []
    else
      var last := decisions[|decisions| - 1];
      var earlier := LedgerOrder(decisions[..|decisions| - 1]);
      if IsCompletion(last) || last.effect in earlier then earlier else earlier + [last.effect]
  }

  function FindDecision(decisions: seq<Decision>, id: string): Option<Decision> {
    if decisions == [] then None
    else if decisions[0].id == id then Some(decisions[0])
    else FindDecision(decisions[1..], id)
  }

  function Executions(events: seq<LedgerEvent>, effect: string): (found: seq<LedgerEvent>)
    ensures forall e :: e in found ==> e.ExecutionEvent? && e.effect == effect
  {
    if events == [] then []
    else
      var last := events[|events| - 1];
      Executions(events[..|events| - 1], effect)
      + if last.ExecutionEvent? && last.effect == effect then [last] else []
  }

  function Mutations(events: seq<LedgerEvent>, effect: string): (found: seq<LedgerEvent>)
    ensures forall e :: e in found ==> e.MutationEvent? && e.effect == effect
  {
    if events == [] then []
    else
      var last := events[|events| - 1];
      Mutations(events[..|events| - 1], effect)
      + if last.MutationEvent? && last.effect == effect then [last] else []
  }

  // ----- one effect

  predicate Attempted(effect: Effect) {
    effect.result.status != Denied && effect.result.status != AwaitingAuthority
  }

  const STALE_SUBJECT := "protected_effect.stale_subject"
  const SCHEMA_DRIFT := "protected_effect.capability_schema_drift"
  const BOTH_DRIFT := "protected_effect.subject_and_capability_schema_drift"

  /** Identity: the scope, the decision's binding, and the denial that drift demands. */
  predicate IdentityHolds(statement: Statement, effect: Effect, digest: string) {
    var request, result := effect.request, effect.result;
    var subjectDrift, schemaDrift := result.before != request.subject, result.toolSchema != request.toolSchema;
    && InScope(statement, request.subject) && InScope(statement, result.before)
    && (result.after.Some? ==> InScope(statement, result.after.value))
    && result.decision.effect == digest
    && result.decision.subject == result.before.digest
    && (if subjectDrift || schemaDrift then
          && result.status == Denied
          && result.reason == Some(if subjectDrift && schemaDrift then BOTH_DRIFT
                                   else if subjectDrift then STALE_SUBJECT else SCHEMA_DRIFT)
          && (subjectDrift ==> SubjectObservation in result.evidence)
          && (schemaDrift ==> CapabilitySchema in result.evidence)
        else result.reason.Some? ==> result.reason.value !in {STALE_SUBJECT, SCHEMA_DRIFT, BOTH_DRIFT})
  }

  predicate InScope(statement: Statement, subject: Subject) {
    subject.kind == statement.subject.kind && subject.locator == statement.subject.locator
  }

  function OutcomeFor(status: ExecutionStatus): Decided {
    match status
    case Denied => Block
    case AwaitingAuthority => Ask
    case _ => Allow
  }

  function RequiredEvidence(status: ExecutionStatus): Option<Evidence> {
    match status
    case Failing => Some(FailureEvidence)
    case Interrupted => Some(InterruptionEvidence)
    case UnknownOutcome => Some(UnknownOutcomeEvidence)
    case _ => None
  }

  predicate NothingHappened(result: EffectResult) {
    && result.reason.Some? && result.after.None? && result.exit.None? && result.executor.None? && result.sandbox.None?
    && result.usage == Usage(0, 0, 0, 0)
    && forall e :: e in result.evidence ==> e == SubjectObservation || e == CapabilitySchema
  }

  predicate AttemptHolds(request: EffectRequest, result: EffectResult) {
    var required := RequiredEvidence(result.status);
    && result.decision.gate == Permission
    && result.executor.Some? && result.sandbox == Some(request.sandbox) && result.usage.toolCalls >= 1
    && ExecutorEvidence in result.evidence && SandboxEvidence in result.evidence && UsageEvidence in result.evidence
    && (result.status == Executed <==> result.reason.None?)
    && (required.Some? ==> required.value in result.evidence)
    && (forall e :: e in result.evidence ==>
          e in {FailureEvidence, InterruptionEvidence, UnknownOutcomeEvidence} ==> required == Some(e))
    && (if result.status == UnknownOutcome then result.exit.None? else result.after.Some?)
    && (result.after.Some? ==>
          && SubjectObservation in result.evidence
          && if request.effectClass == Observing then result.after.value.digest == request.subject.digest
             else MutationEvidence in result.evidence && ArtifactEvidence in result.evidence)
    && if request.isProcess then
         && (result.status == Executed || result.status == Failing ==> result.exit.Some?)
         && (result.exit.Some? ==> ExitEvidence in result.evidence)
       else result.exit.None? && ExitEvidence !in result.evidence
  }

  /** `verifyEffectOutcome` */
  predicate OutcomeHolds(effect: Effect) {
    && effect.result.decision.outcome == OutcomeFor(effect.result.status)
    && if Attempted(effect) then AttemptHolds(effect.request, effect.result) else NothingHappened(effect.result)
  }

  function RequiredGates(effectClass: EffectClass): set<Gate> {
    {Permission, ToolTrust, Runtime} + if effectClass == Mutating then {Workflow} else {}
  }

  /** Some decision of this gate on this very effect precedes `sequence` in the ledger. */
  predicate GatePrecedes(events: seq<LedgerEvent>, digest: string, gate: Gate, sequence: int) {
    exists i :: 0 <= i < |events| && events[i].DecisionEvent? && events[i].decision.effect == digest
      && events[i].decision.gate == gate && events[i].sequence < sequence
      && (gate == Workflow ==> events[i].decision.code == "workflow.mutation_authorized")
  }

  /** No decision on this effect refused it, or looked at another subject. */
  predicate NothingRefused(events: seq<LedgerEvent>, request: EffectRequest, digest: string) {
    forall i :: 0 <= i < |events| && events[i].DecisionEvent? && events[i].decision.effect == digest ==>
      events[i].decision.subject == request.subject.digest && events[i].decision.outcome == Allow
  }

  /** One execution, of the exact action, capability, decision and result, after every required gate. */
  predicate ExecutionHolds(statement: Statement, effect: Effect, digest: string) {
    var executions := Executions(statement.events, digest);
    if !Attempted(effect) then executions == []
    else
      && |executions| == 1
      && executions[0] in executions
      && var execution := executions[0];
      && execution.action == digest
      && execution.capability == effect.request.capability
      && execution.decisionId == effect.result.decision.id
      && effect.result.digest in execution.results
      && NothingRefused(statement.events, effect.request, digest)
      && forall gate :: gate in RequiredGates(effect.request.effectClass) ==>
           GatePrecedes(statement.events, digest, gate, execution.sequence)
  }

  /** A mutation is recorded exactly for an attempted mutation with a known outcome. */
  predicate ExpectsMutation(effect: Effect) {
    Attempted(effect) && effect.request.effectClass == Mutating && effect.result.after.Some?
  }

  predicate MutationHolds(statement: Statement, effect: Effect, digest: string, current: string) {
    var mutations := Mutations(statement.events, digest);
    && |mutations| == (if ExpectsMutation(effect) then 1 else 0)
    && (mutations != [] ==>
          && mutations[0] in mutations
          && mutations[0].before == current
          && effect.result.after.Some? && mutations[0].after == effect.result.after.value.digest)
  }

  /** Everything one pair must satisfy, given the subject it starts from. */
  predicate EffectHolds(statement: Statement, digesting: Digesting, effect: Effect, current: string) {
    var digest := digesting(effect.request);
    && IdentityHolds(statement, effect, digest)
    && OutcomeHolds(effect)
    && FindDecision(Decisions(statement.events), effect.result.decision.id) == Some(effect.result.decision)
    && ExecutionHolds(statement, effect, digest)
    && MutationHolds(statement, effect, digest, current)
    && (statement.completed ==> effect.result.status == Executed)
  }

  // ----- the whole list

  /** The subject effect `i` starts from: the initial one, as changed by the mutations before it. */
  function SubjectAt(statement: Statement, digesting: Digesting, i: nat): string
    requires i <= |statement.effects|
  {
    if i == 0 then statement.subject.digest
    else AfterEffect(statement, digesting(statement.effects[i - 1].request), SubjectAt(statement, digesting, i - 1))
  }

  function AfterEffect(statement: Statement, digest: string, current: string): string {
    var mutations := Mutations(statement.events, digest);
    if mutations != [] then (assert mutations[0] in mutations; mutations[0].after) else current
  }

  function Add(a: Usage, b: Usage): Usage {
    Usage(a.costMicros + b.costMicros, a.elapsedMs + b.elapsedMs, a.modelTokens + b.modelTokens,
          a.toolCalls + b.toolCalls)
  }

  function Total(effects: seq<Effect>): Usage {
    if effects == [] then Usage(0, 0, 0, 0)
    else Add(Total(effects[..|effects| - 1]), effects[|effects| - 1].result.usage)
  }

  predicate Within(total: Usage, limit: Usage) {
    && IsSafeInteger(total.costMicros) && total.costMicros <= limit.costMicros
    && IsSafeInteger(total.elapsedMs) && total.elapsedMs <= limit.elapsedMs
    && IsSafeInteger(total.modelTokens) && total.modelTokens <= limit.modelTokens
    && IsSafeInteger(total.toolCalls) && total.toolCalls <= limit.toolCalls
  }

  /** Pair `i` is the ledger's effect `i`, numbered `i + 1`, new, and holds from the subject reached so far. */
  predicate PairHolds(statement: Statement, digesting: Digesting, i: nat)
    requires i < |statement.effects|
  {
    var effect, order := statement.effects[i], LedgerOrder(Decisions(statement.events));
    && i < |order| && order[i] == digesting(effect.request)
    && (forall j :: 0 <= j < i ==> statement.effects[j].request.id != effect.request.id)
    && effect.request.sequence == i + 1
    && effect.request.subject.digest == SubjectAt(statement, digesting, i)
    && EffectHolds(statement, digesting, effect, SubjectAt(statement, digesting, i))
    && Within(Total(statement.effects[..i + 1]), statement.usage)
  }

  predicate IsAuthorizedCompletion(d: Decision) {
    d.gate == Workflow && d.outcome == Allow && d.code == "workflow.completion_authorized"
  }

  predicate CompletionsBind(statement: Statement) {
    statement.completed ==>
      forall d :: d in Decisions(statement.events) && IsAuthorizedCompletion(d) ==> d.effect == d.subject
  }

  predicate Accepted(statement: Statement, digesting: Digesting) {
    && |LedgerOrder(Decisions(statement.events))| == |statement.effects|
    && (forall i :: 0 <= i < |statement.effects| ==> PairHolds(statement, digesting, i))
    && SubjectAt(statement, digesting, |statement.effects|) == statement.resultingSubject
    && CompletionsBind(statement)
  }

  /** `verifyGaapEffects`: one pass, carrying the subject, the usage sums and the identities seen. */
  method VerifyGaapEffects(statement: Statement, digesting: Digesting) returns (ok: bool)
    ensures ok <==> Accepted(statement, digesting)
  {
    hide EffectHolds, Within, LedgerOrder, Decisions, AfterEffect, Add, CompletionsBind;
    var decisions := Decisions(statement.events);
    var order := LedgerOrder(decisions);
    if |order| != |statement.effects| { return false; }
    var ids: set<string> := {};
    var current := statement.subject.digest;
    var sums := Usage(0, 0, 0, 0);
    for index := 0 to |statement.effects|
      invariant forall i :: 0 <= i < index ==> PairHolds(statement, digesting, i)
      invariant ids == set i | 0 <= i < index :: statement.effects[i].request.id
      invariant current == SubjectAt(statement, digesting, index)
      invariant sums == Total(statement.effects[..index])
    {
      var effect := statement.effects[index];
      var digest := digesting(effect.request);
      assert statement.effects[..index + 1][..index] == statement.effects[..index];
      if order[index] != digest || effect.request.id in ids || effect.request.sequence != index + 1
         || effect.request.subject.digest != current {
        assert !PairHolds(statement, digesting, index);
        return false;
      }
      ids := ids + {effect.request.id};
      if !EffectHolds(statement, digesting, effect, current) {
        assert !PairHolds(statement, digesting, index);
        return false;
      }
      current := AfterEffect(statement, digest, current);
      sums := Add(sums, effect.result.usage);
      if !Within(sums, statement.usage) {
        assert !PairHolds(statement, digesting, index);
        return false;
      }
      assert PairHolds(statement, digesting, index);
    }
    return current == statement.resultingSubject && CompletionsBind(statement);
  }

  // ----- what acceptance means

  ghost predicate Distinct(order: seq<string>) {
    forall i, j :: 0 <= i < j < |order| ==> order[i] != order[j]
  }

  ghost predicate DecidedOn(decisions: seq<Decision>, digest: string) {
    exists d :: d in decisions && !IsCompletion(d) && d.effect == digest
  }

  lemma DecidedOnExtends(decisions: seq<Decision>, last: Decision, digest: string)
    ensures DecidedOn(decisions + [last], digest)
            <==> DecidedOn(decisions, digest) || (!IsCompletion(last) && last.effect == digest)
  {
    hide IsCompletion;
    if !IsCompletion(last) && last.effect == digest { assert last in decisions + [last]; }
    if DecidedOn(decisions, digest) {
      var d :| d in decisions && !IsCompletion(d) && d.effect == digest;
      assert d in decisions + [last];
    }
  }

  lemma {:induction false} OrderIsTheDecided(decisions: seq<Decision>, digest: string)
    ensures Distinct(LedgerOrder(decisions))
    ensures digest in LedgerOrder(decisions) <==> DecidedOn(decisions, digest)
  {
    hide IsCompletion, DecidedOn;
    if decisions == [] {
      assert !DecidedOn([], digest) by { NothingDecided(digest); }
    } else {
      var n := |decisions| - 1;
      OrderIsTheDecided(decisions[..n], digest);
      DecidedOnExtends(decisions[..n], decisions[n], digest);
      assert decisions == decisions[..n] + [decisions[n]];
    }
  }

  lemma NothingDecided(digest: string)
    ensures !DecidedOn([], digest)
  {
  }

  /**
   * Acceptance matches the ledger's effects and the signed pairs one to one: every protected effect the ledger decided
   * on is the effect of exactly one pair, and every pair's effect is one the ledger decided on.
   */
  lemma EffectsMatchLedger(statement: Statement, digesting: Digesting, digest: string)
    requires Accepted(statement, digesting)
    ensures DecidedOn(Decisions(statement.events), digest)
            <==> exists i :: 0 <= i < |statement.effects| && digesting(statement.effects[i].request) == digest
    ensures forall i, j :: 0 <= i < j < |statement.effects| ==>
              && digesting(statement.effects[i].request) != digesting(statement.effects[j].request)
              && statement.effects[i].request.id != statement.effects[j].request.id
  {
    hide EffectHolds, Within, LedgerOrder, SubjectAt, DecidedOn, Decisions;
    var order := LedgerOrder(Decisions(statement.events));
    OrderIsTheDecided(Decisions(statement.events), digest);
    forall i | 0 <= i < |statement.effects|
      ensures order[i] == digesting(statement.effects[i].request)
      ensures forall j :: 0 <= j < i ==> statement.effects[j].request.id != statement.effects[i].request.id
    {
      assert PairHolds(statement, digesting, i);
    }
    if digest in order {
      var i :| 0 <= i < |order| && order[i] == digest;
      assert digesting(statement.effects[i].request) == digest;
    }
  }

  /**
   * The subject chain runs from the initial to the resulting digest. A step changes the digest only for an attempted
   * mutation whose outcome is known, and whenever an attempt observed the subject afterwards, the chain goes there.
   */
  lemma OnlyKnownMutationsMoveTheSubject(statement: Statement, digesting: Digesting, i: nat)
    requires Accepted(statement, digesting) && i < |statement.effects|
    ensures SubjectAt(statement, digesting, 0) == statement.subject.digest
    ensures SubjectAt(statement, digesting, |statement.effects|) == statement.resultingSubject
    ensures
      var effect := statement.effects[i];
      var before, after := SubjectAt(statement, digesting, i), SubjectAt(statement, digesting, i + 1);
      && effect.request.subject.digest == before
      && (before != after ==> ExpectsMutation(effect))
      && (Attempted(effect) && effect.result.after.Some? ==> effect.result.after.value.digest == after)
      && (effect.result.after.None? ==> after == before)
  {
    hide IdentityHolds, ExecutionHolds, Within, LedgerOrder, FindDecision, Decisions;
    assert PairHolds(statement, digesting, i);
  }

  ghost predicate IsOnlyExecution(events: seq<LedgerEvent>, digest: string, k: int) {
    forall j :: 0 <= j < |events| && Executes(events[j], digest) ==> j == k
  }

  /** Executed after permission, tool trust and runtime, and after the workflow gate for a mutation. */
  ghost predicate ExecutedOnce(events: seq<LedgerEvent>, digest: string, effectClass: EffectClass) {
    exists k :: 0 <= k < |events| && Executes(events[k], digest)
      && IsOnlyExecution(events, digest, k)
      && forall gate :: gate in RequiredGates(effectClass) ==>
           GatePrecedes(events, digest, gate, events[k].sequence)
  }

  predicate Executes(e: LedgerEvent, digest: string) {
    e.ExecutionEvent? && e.effect == digest
  }

  lemma {:induction false} NoExecutionsFound(events: seq<LedgerEvent>, digest: string)
    ensures Executions(events, digest) == [] <==> forall j :: 0 <= j < |events| ==> !Executes(events[j], digest)
  {
    if events != [] {
      var n := |events| - 1;
      NoExecutionsFound(events[..n], digest);
      assert forall j :: 0 <= j < n ==> events[..n][j] == events[j];
    }
  }

  lemma {:induction false} OneExecutionFound(events: seq<LedgerEvent>, digest: string) returns (k: nat)
    requires |Executions(events, digest)| == 1
    ensures k < |events| && events[k] == Executions(events, digest)[0] && IsOnlyExecution(events, digest, k)
  {
    var n := |events| - 1;
    if Executes(events[n], digest) {
      NoExecutionsFound(events[..n], digest);
      assert forall j :: 0 <= j < n ==> events[..n][j] == events[j];
      k := n;
    } else {
      k := OneExecutionFound(events[..n], digest);
      forall j | 0 <= j < |events| && Executes(events[j], digest) ensures j == k {
        assert events[..n][j] == events[j];
      }
    }
  }

  /**
   * Every attempted effect was executed exactly once in the ledger, after all its required gates, and no gate refused
   * it; an effect that was denied or is awaiting authority was never executed.
   */
  lemma AttemptsRunOnceAfterTheirGates(statement: Statement, digesting: Digesting, i: nat)
    requires Accepted(statement, digesting) && i < |statement.effects|
    ensures
      var effect := statement.effects[i];
      var digest := digesting(effect.request);
      if Attempted(effect) then
        && ExecutedOnce(statement.events, digest, effect.request.effectClass)
        && NothingRefused(statement.events, effect.request, digest)
      else forall j :: 0 <= j < |statement.events| ==> !Executes(statement.events[j], digest)
  {
    hide IdentityHolds, OutcomeHolds, MutationHolds, Within, LedgerOrder, SubjectAt, GatePrecedes, NothingRefused,
      FindDecision, Decisions, RequiredGates;
    assert PairHolds(statement, digesting, i);
    var effect := statement.effects[i];
    var digest := digesting(effect.request);
    if !Attempted(effect) {
      NoExecutionsFound(statement.events, digest);
    } else {
      var k := OneExecutionFound(statement.events, digest);
      assert Executions(statement.events, digest)[0] in Executions(statement.events, digest);
      assert statement.events[k].effect == digest;
    }
  }
}

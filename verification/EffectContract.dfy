/**
 * What an accepted effect list says, effect by effect, in terms of the ledger's events: who it was, what may be
 * claimed of each outcome, what ran and what changed. Nothing less is accepted, and nothing more is asked.
 */
module EffectContract {
  import opened Options
  import opened JsonValues
  import opened EffectChain

  // ----- identity

  /** What the observed subject and tool schema demand to be said of a request. */
  function DriftReason(effect: Effect): Option<string> {
    match (effect.result.before == effect.request.subject, effect.result.toolSchema == effect.request.toolSchema)
    case (true, true) => None
    case (false, true) => Some("protected_effect.stale_subject")
    case (true, false) => Some("protected_effect.capability_schema_drift")
    case (false, false) => Some("protected_effect.subject_and_capability_schema_drift")
  }

  /** A reason only a drifted effect may give. */
  predicate IsDriftReason(reason: string) {
    reason in {"protected_effect.stale_subject", "protected_effect.capability_schema_drift",
               "protected_effect.subject_and_capability_schema_drift"}
  }

  predicate SameScope(subject: Subject, scope: Subject) {
    (subject.kind, subject.locator) == (scope.kind, scope.locator)
  }

  /** Everything observed is the selected subject, the decision is about this request, and a drift is denied by name. */
  ghost predicate Identified(statement: Statement, effect: Effect, digest: string) {
    && SameScope(effect.request.subject, statement.subject) && SameScope(effect.result.before, statement.subject)
    && (effect.result.after.Some? ==> SameScope(effect.result.after.value, statement.subject))
    && (effect.result.decision.effect, effect.result.decision.subject) == (digest, effect.result.before.digest)
    && (Attempted(effect) ==>
          effect.result.before == effect.request.subject && effect.result.toolSchema == effect.request.toolSchema)
    && (DriftReason(effect).Some? ==> effect.result.status == Denied && effect.result.reason == DriftReason(effect))
    && (DriftReason(effect).None? && effect.result.reason.Some? ==> !IsDriftReason(effect.result.reason.value))
    && (effect.result.before != effect.request.subject ==> SubjectObservation in effect.result.evidence)
    && (effect.result.toolSchema != effect.request.toolSchema ==> CapabilitySchema in effect.result.evidence)
  }

  // ----- what each outcome may claim

  const FAULTS := {FailureEvidence, InterruptionEvidence, UnknownOutcomeEvidence}

  /** Of the three kinds of evidence of a fault, exactly this one. */
  ghost predicate ShowsOnly(result: EffectResult, fault: Option<Evidence>) {
    forall e :: e in FAULTS ==> (e in result.evidence <==> fault == Some(e))
  }

  /** It never ran: a reason, no effects, no cost, and nothing but observations to show. */
  ghost predicate NeverRan(result: EffectResult) {
    && result.reason.Some?
    && result.after.None? && result.exit.None? && result.executor.None? && result.sandbox.None?
    && result.usage.costMicros == 0 && result.usage.elapsedMs == 0 && result.usage.modelTokens == 0
    && result.usage.toolCalls == 0
    && forall e :: e in result.evidence ==> e in {SubjectObservation, CapabilitySchema}
  }

  /** It ran by permission, in the sandbox it asked for, and shows what ran it and what it cost. */
  ghost predicate Ran(request: EffectRequest, result: EffectResult) {
    && result.decision.gate == Permission && result.decision.outcome == Allow
    && result.executor.Some? && result.sandbox == Some(request.sandbox) && result.usage.toolCalls >= 1
    && (forall e :: e in {ExecutorEvidence, SandboxEvidence, UsageEvidence} ==> e in result.evidence)
    && (result.after.Some? ==>
          && SubjectObservation in result.evidence
          && (request.effectClass == Observing ==> result.after.value.digest == request.subject.digest)
          && (request.effectClass == Mutating ==>
                MutationEvidence in result.evidence && ArtifactEvidence in result.evidence))
    && (!request.isProcess ==> result.exit.None? && ExitEvidence !in result.evidence)
    && (result.exit.Some? ==> ExitEvidence in result.evidence)
  }

  ghost predicate Truthful(request: EffectRequest, result: EffectResult) {
    match result.status
    case Denied => NeverRan(result) && result.decision.outcome == Block
    case AwaitingAuthority => NeverRan(result) && result.decision.outcome == Ask
    case Executed =>
      && Ran(request, result) && result.reason.None? && result.after.Some? && ShowsOnly(result, None)
      && (request.isProcess ==> result.exit.Some?)
    case Failing =>
      && Ran(request, result) && result.reason.Some? && result.after.Some? && ShowsOnly(result, Some(FailureEvidence))
      && (request.isProcess ==> result.exit.Some?)
    case Interrupted =>
      Ran(request, result) && result.reason.Some? && result.after.Some? && ShowsOnly(result, Some(InterruptionEvidence))
    case UnknownOutcome =>
      && Ran(request, result) && result.reason.Some? && result.exit.None?
      && ShowsOnly(result, Some(UnknownOutcomeEvidence))
  }

  // ----- what the ledger has of it

  /** The decision the result carries is the ledger's first of that identifier. */
  ghost predicate Retained(events: seq<LedgerEvent>, d: Decision) {
    exists k :: 0 <= k < |events| && events[k].DecisionEvent? && events[k].decision == d
      && forall j :: 0 <= j < k && events[j].DecisionEvent? ==> events[j].decision.id != d.id
  }

  /** The execution is of the exact action, capability and decision, and carries the very result. */
  predicate Binds(e: LedgerEvent, effect: Effect, digest: string)
    requires e.ExecutionEvent?
  {
    && e.action == digest && e.capability == effect.request.capability
    && e.decisionId == effect.result.decision.id && effect.result.digest in e.results
  }

  /** An earlier decision of this gate on this effect; for the workflow gate, one that authorised the mutation. */
  ghost predicate Precedes(events: seq<LedgerEvent>, digest: string, gate: Gate, sequence: int) {
    exists i :: 0 <= i < |events| && events[i].DecisionEvent? && events[i].sequence < sequence
      && events[i].decision.effect == digest && events[i].decision.gate == gate
      && (gate == Workflow ==> events[i].decision.code == "workflow.mutation_authorized")
  }

  lemma PrecedesIsExact(events: seq<LedgerEvent>, digest: string, gate: Gate, sequence: int)
    ensures GatePrecedes(events, digest, gate, sequence) <==> Precedes(events, digest, gate, sequence)
  {
  }

  /** Exactly one execution of an attempt, after its gates allowed it; none of anything else. */
  ghost predicate Dispatched(events: seq<LedgerEvent>, effect: Effect, digest: string) {
    if Attempted(effect) then
      && (exists k :: 0 <= k < |events| && events[k].ExecutionEvent? && events[k].effect == digest
                      && Binds(events[k], effect, digest)
            && (forall j :: 0 <= j < |events| && events[j].ExecutionEvent? && events[j].effect == digest ==> j == k)
            && (forall gate :: gate in {Permission, ToolTrust, Runtime} ==>
                  Precedes(events, digest, gate, events[k].sequence))
            && (effect.request.effectClass == Mutating ==>
                  Precedes(events, digest, Workflow, events[k].sequence)))
      && forall j :: 0 <= j < |events| && events[j].DecisionEvent? && events[j].decision.effect == digest ==>
           events[j].decision.subject == effect.request.subject.digest && events[j].decision.outcome == Allow
    else forall j :: 0 <= j < |events| && events[j].ExecutionEvent? ==> events[j].effect != digest
  }

  predicate Mutates(e: LedgerEvent, digest: string) {
    e.MutationEvent? && e.effect == digest
  }

  /** Exactly one mutation, from the subject reached to the one observed, of an attempted mutation with a known end. */
  ghost predicate Moved(events: seq<LedgerEvent>, effect: Effect, digest: string, current: string) {
    if Attempted(effect) && effect.request.effectClass == Mutating && effect.result.after.Some? then
      exists k :: 0 <= k < |events| && Mutates(events[k], digest)
        && (forall j :: 0 <= j < |events| && Mutates(events[j], digest) ==> j == k)
        && events[k].before == current && events[k].after == effect.result.after.value.digest
    else forall j :: 0 <= j < |events| ==> !Mutates(events[j], digest)
  }

  ghost predicate Sound(statement: Statement, effect: Effect, digest: string, current: string) {
    && Identified(statement, effect, digest)
    && Truthful(effect.request, effect.result)
    && Retained(statement.events, effect.result.decision)
    && Dispatched(statement.events, effect, digest)
    && Moved(statement.events, effect, digest, current)
    && (statement.completed ==> effect.result.status == Executed)
  }

  // ----- the checks are exactly that

  lemma IdentityIsExact(statement: Statement, effect: Effect, digest: string)
    ensures IdentityHolds(statement, effect, digest) <==> Identified(statement, effect, digest)
  {
  }

  lemma OutcomeIsExact(effect: Effect)
    ensures OutcomeHolds(effect) <==> Truthful(effect.request, effect.result)
  {
    if Attempted(effect) { AttemptIsExact(effect.request, effect.result); }
  }

  lemma AttemptIsExact(request: EffectRequest, result: EffectResult)
    requires Attempted(Effect(request, result))
    ensures AttemptHolds(request, result) && result.decision.outcome == Allow <==> Truthful(request, result)
  {
    var required := RequiredEvidence(result.status);
    assert (forall e :: e in result.evidence ==>
              e in {FailureEvidence, InterruptionEvidence, UnknownOutcomeEvidence} ==> required == Some(e))
           && (required.Some? ==> required.value in result.evidence)
           <==> ShowsOnly(result, required);
  }

  lemma {:induction false} FirstOfItsName(events: seq<LedgerEvent>, d: Decision)
    ensures FindDecision(Decisions(events), d.id) == Some(d) <==> Retained(events, d)
  {
    if events != [] {
      var n := |events| - 1;
      var before, last := events[..n], events[n];
      FirstOfItsName(before, d);
      assert events == before + [last];
      assert forall j :: 0 <= j < n ==> before[j] == events[j];
      FindExtends(Decisions(before), if last.DecisionEvent? then [last.decision] else [], d.id);
      NamedIsFound(before, d.id);
      if Retained(events, d) && !Retained(before, d) {
        assert last.DecisionEvent? && last.decision == d;
      }
      if Retained(before, d) {
        var k :| 0 <= k < n && before[k].DecisionEvent? && before[k].decision == d
                 && forall j :: 0 <= j < k && before[j].DecisionEvent? ==> before[j].decision.id != d.id;
        assert events[k].decision == d;
      }
    }
  }

  lemma {:induction false} FindExtends(decisions: seq<Decision>, more: seq<Decision>, id: string)
    ensures FindDecision(decisions + more, id)
            == if FindDecision(decisions, id).Some? then FindDecision(decisions, id) else FindDecision(more, id)
    ensures FindDecision(decisions, id).Some? ==> FindDecision(decisions, id).value.id == id
  {
    if decisions == [] {
      assert decisions + more == more;
    } else {
      FindExtends(decisions[1..], more, id);
      assert (decisions + more)[1..] == decisions[1..] + more;
    }
  }

  lemma {:induction false} NamedIsFound(events: seq<LedgerEvent>, id: string)
    ensures FindDecision(Decisions(events), id).None?
            <==> forall j :: 0 <= j < |events| && events[j].DecisionEvent? ==> events[j].decision.id != id
  {
    if events != [] {
      var n := |events| - 1;
      NamedIsFound(events[..n], id);
      FindExtends(Decisions(events[..n]), if events[n].DecisionEvent? then [events[n].decision] else [], id);
      assert forall j :: 0 <= j < n ==> events[..n][j] == events[j];
    }
  }

  lemma {:induction false} SoleExecution(events: seq<LedgerEvent>, digest: string, k: nat)
    requires k < |events| && Executes(events[k], digest) && IsOnlyExecution(events, digest, k)
    ensures Executions(events, digest) == [events[k]]
  {
    var n := |events| - 1;
    assert forall j :: 0 <= j < n ==> events[..n][j] == events[j];
    if k == n {
      forall j | 0 <= j < n ensures !Executes(events[..n][j], digest) { assert events[..n][j] == events[j]; }
      NoExecutionsFound(events[..n], digest);
    } else {
      assert !Executes(events[n], digest);
      SoleExecution(events[..n], digest, k);
    }
  }

  /** Every required gate precedes. */
  lemma GatesAreRequired(events: seq<LedgerEvent>, effectClass: EffectClass, digest: string, sequence: int)
    ensures (forall gate :: gate in RequiredGates(effectClass) ==> GatePrecedes(events, digest, gate, sequence))
            <==> && (forall gate :: gate in {Permission, ToolTrust, Runtime} ==>
                       Precedes(events, digest, gate, sequence))
                 && (effectClass == Mutating ==> Precedes(events, digest, Workflow, sequence))
  {
    hide GatePrecedes, Precedes;
    forall gate | true
      ensures GatePrecedes(events, digest, gate, sequence) <==> Precedes(events, digest, gate, sequence)
    {
      PrecedesIsExact(events, digest, gate, sequence);
    }
  }

  lemma DispatchIsExact(statement: Statement, effect: Effect, digest: string)
    ensures ExecutionHolds(statement, effect, digest) <==> Dispatched(statement.events, effect, digest)
  {
    hide GatePrecedes, Precedes, RequiredGates, NothingRefused, Dispatched;
    if Attempted(effect) {
      if ExecutionHolds(statement, effect, digest) { HoldingIsDispatched(statement, effect, digest); }
      if Dispatched(statement.events, effect, digest) { DispatchedHolds(statement, effect, digest); }
    } else {
      NoExecutionsFound(statement.events, digest);
      NothingDispatched(statement.events, effect, digest);
    }
  }

  lemma NothingDispatched(events: seq<LedgerEvent>, effect: Effect, digest: string)
    requires !Attempted(effect)
    ensures Dispatched(events, effect, digest) <==> forall j :: 0 <= j < |events| ==> !Executes(events[j], digest)
  {
  }

  lemma HoldingIsDispatched(statement: Statement, effect: Effect, digest: string)
    requires Attempted(effect) && ExecutionHolds(statement, effect, digest)
    ensures Dispatched(statement.events, effect, digest)
  {
    hide GatePrecedes, Precedes, RequiredGates, NothingRefused;
    var events := statement.events;
    var k := OneExecutionFound(events, digest);
    assert Executions(events, digest)[0] in Executions(events, digest);
    GatesAreRequired(events, effect.request.effectClass, digest, events[k].sequence);
    NothingRefusedIs(events, effect.request, digest);
    forall j | 0 <= j < |events| && events[j].ExecutionEvent? && events[j].effect == digest ensures j == k {
      assert Executes(events[j], digest);
    }
    assert Binds(events[k], effect, digest);
  }

  lemma DispatchedHolds(statement: Statement, effect: Effect, digest: string)
    requires Attempted(effect) && Dispatched(statement.events, effect, digest)
    ensures ExecutionHolds(statement, effect, digest)
  {
    hide GatePrecedes, Precedes, RequiredGates, NothingRefused;
    var events := statement.events;
    var k :| 0 <= k < |events| && events[k].ExecutionEvent? && events[k].effect == digest
             && Binds(events[k], effect, digest)
             && (forall j :: 0 <= j < |events| && events[j].ExecutionEvent? && events[j].effect == digest ==> j == k)
             && (forall gate :: gate in {Permission, ToolTrust, Runtime} ==>
                   Precedes(events, digest, gate, events[k].sequence))
             && (effect.request.effectClass == Mutating ==>
                   Precedes(events, digest, Workflow, events[k].sequence));
    assert IsOnlyExecution(events, digest, k);
    SoleExecution(events, digest, k);
    GatesAreRequired(events, effect.request.effectClass, digest, events[k].sequence);
    NothingRefusedIs(events, effect.request, digest);
  }

  lemma NothingRefusedIs(events: seq<LedgerEvent>, request: EffectRequest, digest: string)
    ensures NothingRefused(events, request, digest)
            <==> forall j :: 0 <= j < |events| && events[j].DecisionEvent? && events[j].decision.effect == digest ==>
                   events[j].decision.subject == request.subject.digest && events[j].decision.outcome == Allow
  {
  }

  lemma {:induction false} NoMutationsFound(events: seq<LedgerEvent>, digest: string)
    ensures Mutations(events, digest) == [] <==> forall j :: 0 <= j < |events| ==> !Mutates(events[j], digest)
  {
    if events != [] {
      var n := |events| - 1;
      NoMutationsFound(events[..n], digest);
      assert forall j :: 0 <= j < n ==> events[..n][j] == events[j];
    }
  }

  lemma {:induction false} SoleMutation(events: seq<LedgerEvent>, digest: string, k: nat)
    requires k < |events| && Mutates(events[k], digest)
    requires forall j :: 0 <= j < |events| && Mutates(events[j], digest) ==> j == k
    ensures Mutations(events, digest) == [events[k]]
  {
    var n := |events| - 1;
    assert forall j :: 0 <= j < n ==> events[..n][j] == events[j];
    if k == n {
      forall j | 0 <= j < n ensures !Mutates(events[..n][j], digest) { assert events[..n][j] == events[j]; }
      NoMutationsFound(events[..n], digest);
    } else {
      assert !Mutates(events[n], digest);
      SoleMutation(events[..n], digest, k);
    }
  }

  lemma {:induction false} OneMutationFound(events: seq<LedgerEvent>, digest: string) returns (k: nat)
    requires |Mutations(events, digest)| == 1
    ensures k < |events| && Mutates(events[k], digest) && events[k] == Mutations(events, digest)[0]
    ensures forall j :: 0 <= j < |events| && Mutates(events[j], digest) ==> j == k
  {
    var n := |events| - 1;
    if Mutates(events[n], digest) {
      NoMutationsFound(events[..n], digest);
      assert forall j :: 0 <= j < n ==> events[..n][j] == events[j];
      k := n;
    } else {
      k := OneMutationFound(events[..n], digest);
      forall j | 0 <= j < |events| && Mutates(events[j], digest) ensures j == k {
        assert events[..n][j] == events[j];
      }
    }
  }

  lemma MutationIsExact(statement: Statement, effect: Effect, digest: string, current: string)
    ensures MutationHolds(statement, effect, digest, current) <==> Moved(statement.events, effect, digest, current)
  {
    var events := statement.events;
    NoMutationsFound(events, digest);
    if ExpectsMutation(effect) {
      if |Mutations(events, digest)| == 1 {
        var k := OneMutationFound(events, digest);
        assert Mutations(events, digest)[0] in Mutations(events, digest);
      }
      if k :| 0 <= k < |events| && Mutates(events[k], digest)
              && (forall j :: 0 <= j < |events| && Mutates(events[j], digest) ==> j == k) {
        SoleMutation(events, digest, k);
      }
    }
  }

  lemma EffectIsExact(statement: Statement, digesting: Digesting, effect: Effect, current: string)
    ensures EffectHolds(statement, digesting, effect, current)
            <==> Sound(statement, effect, digesting(effect.request), current)
  {
    hide IdentityHolds, OutcomeHolds, ExecutionHolds, MutationHolds, Identified, Truthful, Retained, Dispatched,
      Moved;
    var digest := digesting(effect.request);
    IdentityIsExact(statement, effect, digest);
    OutcomeIsExact(effect);
    FirstOfItsName(statement.events, effect.result.decision);
    DispatchIsExact(statement, effect, digest);
    MutationIsExact(statement, effect, digest, current);
  }

  // ----- the order of the ledger

  /** A decision about a protected effect; a workflow decision that names its subject as its effect is about none. */
  predicate Mentions(e: LedgerEvent, digest: string) {
    && e.DecisionEvent? && e.decision.effect == digest
    && !(&& e.decision.gate == Workflow && e.decision.effect == e.decision.subject
         && e.decision.code in {"workflow.completion_authorized", "workflow.mutation_not_authorized",
                                "workflow.verification_failed"})
  }

  ghost predicate FirstMentioned(events: seq<LedgerEvent>, digest: string, k: int) {
    && 0 <= k < |events| && Mentions(events[k], digest)
    && forall j :: 0 <= j < k ==> !Mentions(events[j], digest)
  }

  ghost predicate IsMentioned(events: seq<LedgerEvent>, digest: string) {
    exists k :: FirstMentioned(events, digest, k)
  }

  /** The list holds what the ledger mentions, once, in the order of first mention. */
  ghost predicate InLedgerOrder(events: seq<LedgerEvent>, digests: seq<string>) {
    && (forall i, j :: 0 <= i < j < |digests| ==> digests[i] != digests[j])
    && (forall k, digest :: 0 <= k < |events| && Mentions(events[k], digest) ==> digest in digests)
    && (forall i :: 0 <= i < |digests| ==> IsMentioned(events, digests[i]))
    && (forall i, j, k, l :: 0 <= i < j < |digests| ==>
          FirstMentioned(events, digests[i], k) && FirstMentioned(events, digests[j], l) ==> k < l)
  }

  lemma FirstStays(events: seq<LedgerEvent>, last: LedgerEvent, digest: string, k: int)
    requires k < |events|
    ensures FirstMentioned(events + [last], digest, k) <==> FirstMentioned(events, digest, k)
  {
    assert forall j :: 0 <= j < |events| ==> (events + [last])[j] == events[j];
  }

  lemma OrderExtends(events: seq<LedgerEvent>, last: LedgerEvent, digests: seq<string>)
    requires InLedgerOrder(events, digests)
    ensures
      var longer :=
        if last.DecisionEvent? && Mentions(last, last.decision.effect) && last.decision.effect !in digests
        then digests + [last.decision.effect] else digests;
      InLedgerOrder(events + [last], longer)
  {
    hide Mentions, IsCompletion;
    var all := events + [last];
    assert forall j :: 0 <= j < |events| ==> all[j] == events[j];
    MentionsItself(last);
    var adds := last.DecisionEvent? && Mentions(last, last.decision.effect) && last.decision.effect !in digests;
    var longer := if adds then digests + [last.decision.effect] else digests;
    forall i | 0 <= i < |digests| ensures IsMentioned(all, longer[i]) {
      var k :| FirstMentioned(events, digests[i], k);
      FirstStays(events, last, digests[i], k);
      assert FirstMentioned(all, longer[i], k);
    }
    if adds {
      forall j | 0 <= j < |events| ensures !Mentions(all[j], last.decision.effect) {}
      assert FirstMentioned(all, longer[|digests|], |events|);
    }
    forall i | 0 <= i < |longer| ensures IsMentioned(all, longer[i]) {
      if i < |digests| { assert longer[i] == digests[i]; }
    }
    forall i, j | 0 <= i < j < |longer| ensures longer[i] != longer[j] {
      assert digests[i] in digests;
    }
    forall k, digest | 0 <= k < |all| && Mentions(all[k], digest) ensures digest in longer {
      if k < |events| { assert Mentions(events[k], digest); }
    }
    forall i, j, k, l | 0 <= i < j < |longer| && FirstMentioned(all, longer[i], k) && FirstMentioned(all, longer[j], l)
      ensures k < l
    {
      var m :| FirstMentioned(events, digests[i], m);
      assert k == m by { FirstStays(events, last, digests[i], m); }
      if j < |digests| {
        var n :| FirstMentioned(events, digests[j], n);
        assert l == n by { FirstStays(events, last, digests[j], n); }
      } else {
        assert l == |events|;
      }
    }
  }

  lemma MentionsItself(e: LedgerEvent)
    ensures forall digest :: Mentions(e, digest) ==> e.DecisionEvent? && digest == e.decision.effect
  {
  }

  lemma {:induction false} LedgerOrderIsInOrder(events: seq<LedgerEvent>)
    ensures InLedgerOrder(events, LedgerOrder(Decisions(events)))
  {
    hide InLedgerOrder, IsCompletion, Mentions;
    if events == [] {
      NothingMentioned();
    } else {
      var n := |events| - 1;
      LedgerOrderIsInOrder(events[..n]);
      OrderExtends(events[..n], events[n], LedgerOrder(Decisions(events[..n])));
      assert events == events[..n] + [events[n]];
      CompletionIsNoMention(events[n]);
      if events[n].DecisionEvent? {
        OrderOfOneMore(Decisions(events[..n]), events[n].decision);
      } else {
        assert Decisions(events) == Decisions(events[..n]);
      }
    }
  }

  lemma OrderOfOneMore(decisions: seq<Decision>, last: Decision)
    ensures
      var earlier := LedgerOrder(decisions);
      LedgerOrder(decisions + [last])
      == if IsCompletion(last) || last.effect in earlier then earlier else earlier + [last.effect]
  {
    assert (decisions + [last])[..|decisions|] == decisions;
  }

  lemma NothingMentioned()
    ensures InLedgerOrder([], [])
  {
  }

  lemma CompletionIsNoMention(e: LedgerEvent)
    ensures e.DecisionEvent? ==> (IsCompletion(e.decision) <==> !Mentions(e, e.decision.effect))
  {
  }

  /** There is only one such list. */
  lemma {:induction false} OrderIsUnique(events: seq<LedgerEvent>, one: seq<string>, other: seq<string>)
    requires InLedgerOrder(events, one) && InLedgerOrder(events, other)
    ensures one == other
  {
    SameLength(events, one, other);
    forall i | 0 <= i < |one| ensures one[i] == other[i] {
      SamePlace(events, one, other, i);
    }
  }

  lemma SameMembers(events: seq<LedgerEvent>, one: seq<string>, other: seq<string>)
    requires InLedgerOrder(events, one) && InLedgerOrder(events, other)
    ensures forall d :: d in one ==> d in other
  {
    hide Mentions;
    forall d | d in one ensures d in other {
      var i :| 0 <= i < |one| && one[i] == d;
      var k :| FirstMentioned(events, one[i], k);
    }
  }

  lemma {:induction false} DistinctSize(list: seq<string>)
    requires forall i, j :: 0 <= i < j < |list| ==> list[i] != list[j]
    ensures |(set d | d in list)| == |list|
  {
    if list != [] {
      var n := |list| - 1;
      DistinctSize(list[..n]);
      assert (set d | d in list) == (set d | d in list[..n]) + {list[n]};
    }
  }

  lemma SameLength(events: seq<LedgerEvent>, one: seq<string>, other: seq<string>)
    requires InLedgerOrder(events, one) && InLedgerOrder(events, other)
    ensures |one| == |other|
  {
    SameMembers(events, one, other);
    SameMembers(events, other, one);
    DistinctSize(one);
    DistinctSize(other);
    assert (set d | d in one) == (set d | d in other);
  }

  /** The members before place `i` are those first mentioned earlier, so the lists agree place by place. */
  lemma {:induction false} SamePlace(events: seq<LedgerEvent>, one: seq<string>, other: seq<string>, i: nat)
    requires InLedgerOrder(events, one) && InLedgerOrder(events, other) && |one| == |other| && i < |one|
    ensures one[i] == other[i]
  {
    hide Mentions;
    forall j | 0 <= j < i ensures one[j] == other[j] { SamePlace(events, one, other, j); }
    SameMembers(events, one, other);
    SameMembers(events, other, one);
    assert one[i] in one && other[i] in other;
    var p :| 0 <= p < |other| && other[p] == one[i];
    var q :| 0 <= q < |one| && one[q] == other[i];
    var k :| FirstMentioned(events, one[i], k);
    var l :| FirstMentioned(events, other[i], l);
  }

  // ----- the whole list

  function SumOf(effects: seq<Effect>, measure: Usage -> int): int {
    if effects == [] then 0
    else SumOf(effects[..|effects| - 1], measure) + measure(effects[|effects| - 1].result.usage)
  }

  function CostOf(u: Usage): int { u.costMicros }

  function TimeOf(u: Usage): int { u.elapsedMs }

  function TokensOf(u: Usage): int { u.modelTokens }

  function CallsOf(u: Usage): int { u.toolCalls }

  /** After every effect so far the sum is a safe integer that the run's own figure covers. */
  predicate Covered(statement: Statement, measure: Usage -> int) {
    forall n :: 0 < n <= |statement.effects| ==>
      && IsSafeInteger(SumOf(statement.effects[..n], measure))
      && SumOf(statement.effects[..n], measure) <= measure(statement.usage)
  }

  lemma {:induction false} TotalIsSums(effects: seq<Effect>)
    ensures Total(effects)
            == Usage(SumOf(effects, CostOf), SumOf(effects, TimeOf), SumOf(effects, TokensOf), SumOf(effects, CallsOf))
  {
    if effects != [] { TotalIsSums(effects[..|effects| - 1]); }
  }

  /** Every total is covered in every measure. */
  lemma CoveredIsWithin(statement: Statement)
    ensures (forall n :: 0 < n <= |statement.effects| ==> Within(Total(statement.effects[..n]), statement.usage))
            <==> && Covered(statement, CostOf) && Covered(statement, TimeOf)
                 && Covered(statement, TokensOf) && Covered(statement, CallsOf)
  {
    hide Total, SumOf;
    forall n | 0 < n <= |statement.effects|
      ensures Total(statement.effects[..n])
              == Usage(SumOf(statement.effects[..n], CostOf), SumOf(statement.effects[..n], TimeOf),
                       SumOf(statement.effects[..n], TokensOf), SumOf(statement.effects[..n], CallsOf))
    {
      TotalIsSums(statement.effects[..n]);
    }
  }

  /** The subject as each effect finds it: it moves only where an attempted mutation was seen to its end. */
  ghost predicate IsChain(statement: Statement, chain: seq<string>) {
    && |chain| == |statement.effects| + 1
    && chain[0] == statement.subject.digest && chain[|statement.effects|] == statement.resultingSubject
    && forall i :: 0 <= i < |statement.effects| ==>
         var effect := statement.effects[i];
         chain[i + 1] == if Attempted(effect) && effect.request.effectClass == Mutating && effect.result.after.Some?
                         then effect.result.after.value.digest else chain[i]
  }

  ghost predicate PairIsSound(statement: Statement, digesting: Digesting, chain: seq<string>, i: nat)
    requires i < |statement.effects| && |chain| == |statement.effects| + 1
  {
    var effect := statement.effects[i];
    && effect.request.sequence == i + 1 && effect.request.subject.digest == chain[i]
    && (forall j :: 0 <= j < i ==> statement.effects[j].request.id != effect.request.id)
    && Sound(statement, effect, digesting(effect.request), chain[i])
  }

  function Digests(statement: Statement, digesting: Digesting): (digests: seq<string>)
    ensures |digests| == |statement.effects|
    ensures forall i :: 0 <= i < |digests| ==> digests[i] == digesting(statement.effects[i].request)
  {
    seq(|statement.effects|, i requires 0 <= i < |statement.effects| => digesting(statement.effects[i].request))
  }

  /** A completed run authorised only completions of its own subject. */
  ghost predicate CompletedOnSubject(statement: Statement) {
    statement.completed ==>
      forall k :: 0 <= k < |statement.events| && statement.events[k].DecisionEvent? ==>
        var d := statement.events[k].decision;
        d.gate == Workflow && d.outcome == Allow && d.code == "workflow.completion_authorized" ==> d.effect == d.subject
  }

  /** The signed pairs are the ledger's effects in their order, each sound, on one chain, and paid for. */
  ghost predicate Contract(statement: Statement, digesting: Digesting) {
    && InLedgerOrder(statement.events, Digests(statement, digesting))
    && (exists chain: seq<string> ::
          && IsChain(statement, chain)
          && forall i :: 0 <= i < |statement.effects| ==> PairIsSound(statement, digesting, chain, i))
    && Covered(statement, CostOf) && Covered(statement, TimeOf)
    && Covered(statement, TokensOf) && Covered(statement, CallsOf)
    && CompletedOnSubject(statement)
  }

  lemma {:induction false} DecisionIsEvent(events: seq<LedgerEvent>, d: Decision)
    ensures d in Decisions(events)
            <==> exists k :: 0 <= k < |events| && events[k].DecisionEvent? && events[k].decision == d
  {
    if events != [] {
      var n := |events| - 1;
      DecisionIsEvent(events[..n], d);
      assert forall j :: 0 <= j < n ==> events[..n][j] == events[j];
    }
  }

  lemma CompletionIsExact(statement: Statement)
    ensures CompletionsBind(statement) <==> CompletedOnSubject(statement)
  {
    forall d | true
      ensures d in Decisions(statement.events)
              <==> exists k :: 0 <= k < |statement.events| && statement.events[k].DecisionEvent?
                               && statement.events[k].decision == d
    {
      DecisionIsEvent(statement.events, d);
    }
  }

  /** A sound pair takes the subject where the chain goes. */
  lemma NextSubject(statement: Statement, effect: Effect, digest: string, current: string)
    requires MutationHolds(statement, effect, digest, current)
    ensures AfterEffect(statement, digest, current)
            == if Attempted(effect) && effect.request.effectClass == Mutating && effect.result.after.Some?
               then effect.result.after.value.digest else current
  {
    hide Mutations;
  }

  lemma HoldsMutation(statement: Statement, digesting: Digesting, effect: Effect, current: string)
    requires EffectHolds(statement, digesting, effect, current)
    ensures MutationHolds(statement, effect, digesting(effect.request), current)
  {
    hide IdentityHolds, OutcomeHolds, ExecutionHolds, MutationHolds;
  }

  lemma {:induction false} ChainIsSubjects(statement: Statement, digesting: Digesting, chain: seq<string>, i: nat)
    requires IsChain(statement, chain) && i <= |statement.effects|
    requires forall j :: 0 <= j < i ==> PairIsSound(statement, digesting, chain, j)
    ensures SubjectAt(statement, digesting, i) == chain[i]
  {
    hide Sound, AfterEffect, EffectHolds;
    if i > 0 {
      ChainIsSubjects(statement, digesting, chain, i - 1);
      var effect := statement.effects[i - 1];
      assert PairIsSound(statement, digesting, chain, i - 1);
      EffectIsExact(statement, digesting, effect, chain[i - 1]);
      HoldsMutation(statement, digesting, effect, chain[i - 1]);
      NextSubject(statement, effect, digesting(effect.request), chain[i - 1]);
    }
  }

  lemma AcceptedIsContract(statement: Statement, digesting: Digesting)
    requires Accepted(statement, digesting)
    ensures Contract(statement, digesting)
  {
    hide EffectHolds, Within, Total, Sound, LedgerOrder, Decisions, SubjectAt, InLedgerOrder, CompletionsBind,
      CompletedOnSubject, Covered;
    var n := |statement.effects|;
    var chain := seq(n + 1, i requires 0 <= i <= n => SubjectAt(statement, digesting, i));
    var order := LedgerOrder(Decisions(statement.events));
    LedgerOrderIsInOrder(statement.events);
    forall i | 0 <= i < n ensures order[i] == Digests(statement, digesting)[i] {
      assert PairHolds(statement, digesting, i);
    }
    assert order == Digests(statement, digesting);
    forall i | 0 <= i < n ensures PairIsSound(statement, digesting, chain, i) {
      assert PairHolds(statement, digesting, i);
      EffectIsExact(statement, digesting, statement.effects[i], chain[i]);
    }
    SubjectsAreChain(statement, digesting, chain);
    forall m | 0 < m <= n ensures Within(Total(statement.effects[..m]), statement.usage) {
      assert PairHolds(statement, digesting, m - 1);
    }
    CoveredIsWithin(statement);
    CompletionIsExact(statement);
  }

  lemma SubjectsAreChain(statement: Statement, digesting: Digesting, chain: seq<string>)
    requires Accepted(statement, digesting) && |chain| == |statement.effects| + 1
    requires forall i :: 0 <= i < |chain| ==> chain[i] == SubjectAt(statement, digesting, i)
    ensures IsChain(statement, chain)
  {
    hide EffectHolds, Within, Total, LedgerOrder, Decisions, AfterEffect, CompletionsBind;
    forall i | 0 <= i < |statement.effects|
      ensures
        var effect := statement.effects[i];
        chain[i + 1] == if Attempted(effect) && effect.request.effectClass == Mutating && effect.result.after.Some?
                        then effect.result.after.value.digest else chain[i]
    {
      var effect := statement.effects[i];
      assert PairHolds(statement, digesting, i);
      HoldsMutation(statement, digesting, effect, chain[i]);
      NextSubject(statement, effect, digesting(effect.request), chain[i]);
    }
  }

  lemma ContractIsAccepted(statement: Statement, digesting: Digesting)
    requires Contract(statement, digesting)
    ensures Accepted(statement, digesting)
  {
    hide EffectHolds, Within, Total, Sound, LedgerOrder, Decisions, SubjectAt, InLedgerOrder, CompletionsBind,
      CompletedOnSubject, Covered;
    var n := |statement.effects|;
    var chain :| IsChain(statement, chain)
                 && forall i :: 0 <= i < n ==> PairIsSound(statement, digesting, chain, i);
    LedgerOrderIsInOrder(statement.events);
    OrderIsUnique(statement.events, LedgerOrder(Decisions(statement.events)), Digests(statement, digesting));
    CoveredIsWithin(statement);
    CompletionIsExact(statement);
    ChainIsSubjects(statement, digesting, chain, n);
    forall i | 0 <= i < n ensures PairHolds(statement, digesting, i) {
      ChainIsSubjects(statement, digesting, chain, i);
      assert PairIsSound(statement, digesting, chain, i);
      EffectIsExact(statement, digesting, statement.effects[i], chain[i]);
    }
  }

  /** What `verifyGaapEffects` accepts is the contract: nothing weaker and nothing stronger. */
  lemma AcceptanceIsExact(statement: Statement, digesting: Digesting)
    ensures Accepted(statement, digesting) <==> Contract(statement, digesting)
  {
    hide Accepted, Contract;
    if Accepted(statement, digesting) { AcceptedIsContract(statement, digesting); }
    if Contract(statement, digesting) { ContractIsAccepted(statement, digesting); }
  }
}

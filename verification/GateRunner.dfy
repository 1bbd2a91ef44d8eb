/**
 * Running a gate behind its setup steps (src/adapters/process/gate-runner.ts), the rule that accepts the recorded setup
 * (src/domain/proof.ts), and the signer that relabels the result (src/domain/attestation.ts).
 */
module GateRunner {
  import opened Options
  import opened ProofEvidence

  // ----- one process

  datatype ProcessEvent =
    | TimeoutFired(signalled: bool)
    | AbortRequested(signalled: bool)
    | ForceTimerFired(signalled: bool)
    | SpawnError

  /** A process never reports the two results that only the whole sequence can have. */
  type ProcessResult = r: GateResult | r != GateSetupFailed && r != GateInvalidated witness GatePassed

  predicate Terminates(e: ProcessEvent) {
    e.TimeoutFired? || e.AbortRequested?
  }

  /** A live tree could not be signalled: by the first termination, or by the forced kill it scheduled. */
  predicate Unsignalled(events: seq<ProcessEvent>) {
    exists i :: 0 <= i < |events| && !events[i].SpawnError? && !events[i].signalled
      && if Terminates(events[i]) then forall j :: 0 <= j < i ==> !Terminates(events[j])
         else exists j :: 0 <= j < i && Terminates(events[j])
  }

  /**
   * The flags `runGateProcess` sets while the child runs, and the result chosen from them once it has closed. A pass
   * means exit code 0 and nothing else: no termination, no spawn error, no lost output.
   */
  method RunGateProcess(events: seq<ProcessEvent>, exitCode: Option<int>, streamsSettled: bool)
    returns (result: ProcessResult)
    ensures result == GateCleanupFailed <==> !streamsSettled || Unsignalled(events)
    ensures result == GateAborted
            <==> streamsSettled && !Unsignalled(events) && exists i :: 0 <= i < |events| && events[i].AbortRequested?
    ensures result == GateTimedOut
            <==> streamsSettled && !Unsignalled(events)
                 && (forall i :: 0 <= i < |events| ==> !events[i].AbortRequested?)
                 && exists i :: 0 <= i < |events| && events[i].TimeoutFired?
    ensures result == GateExecutionError
            <==> streamsSettled && !Unsignalled(events)
                 && (forall i :: 0 <= i < |events| ==> !Terminates(events[i]))
                 && exists i :: 0 <= i < |events| && events[i].SpawnError?
    ensures result == GateFailed
            <==> streamsSettled && exitCode != Some(0) && forall i :: 0 <= i < |events| ==> events[i].ForceTimerFired?
    ensures result == GatePassed
            <==> streamsSettled && exitCode == Some(0)
                 && forall i :: 0 <= i < |events| ==> events[i].ForceTimerFired?
  {
    var timedOut, aborted, cleanupFailed, processError, forceTimer := false, false, false, false, false;
    for n := 0 to |events|
      invariant forceTimer <==> exists i :: 0 <= i < n && Terminates(events[i])
      invariant timedOut <==> exists i :: 0 <= i < n && events[i].TimeoutFired?
      invariant aborted <==> exists i :: 0 <= i < n && events[i].AbortRequested?
      invariant processError <==> exists i :: 0 <= i < n && events[i].SpawnError?
      invariant cleanupFailed <==> Unsignalled(events[..n])
    {
      var e := events[n];
      UnsignalledExtend(events[..n], e);
      assert events[..n + 1] == events[..n] + [e];
      match e
      case TimeoutFired(signalled) =>
        timedOut := true;
        if !forceTimer {
          if !signalled { cleanupFailed := true; }
          forceTimer := true;
        }
      case AbortRequested(signalled) =>
        aborted := true;
        if !forceTimer {
          if !signalled { cleanupFailed := true; }
          forceTimer := true;
        }
      case ForceTimerFired(signalled) =>
        if forceTimer && !signalled { cleanupFailed := true; }
      case SpawnError =>
        processError := true;
    }
    assert events[..|events|] == events;
    if !streamsSettled { cleanupFailed := true; }
    if cleanupFailed { return GateCleanupFailed; }
    if aborted { return GateAborted; }
    if timedOut { return GateTimedOut; }
    if processError { return GateExecutionError; }
    return if exitCode == Some(0) then GatePassed else GateFailed;
  }

  lemma UnsignalledExtend(events: seq<ProcessEvent>, e: ProcessEvent)
    ensures
      var armed := exists i :: 0 <= i < |events| && Terminates(events[i]);
      Unsignalled(events + [e])
      <==> Unsignalled(events) || (!e.SpawnError? && !e.signalled && (Terminates(e) <==> !armed))
  {
    var longer := events + [e];
    var n := |events|;
    assert longer[n] == e && forall i :: 0 <= i < n ==> longer[i] == events[i];
    if Unsignalled(events) {
      var i :| 0 <= i < n && !events[i].SpawnError? && !events[i].signalled
               && if Terminates(events[i]) then forall j :: 0 <= j < i ==> !Terminates(events[j])
                  else exists j :: 0 <= j < i && Terminates(events[j]);
      assert longer[i] == events[i];
    }
  }

  // ----- the sequence of setup steps

  datatype Observed = Observed(headSha: string, clean: bool)

  datatype SetupStep = SetupStep(id: string, command: seq<string>, workingDirectory: string, timeoutMs: int)

  datatype StepRun = StepRun(
    step: SetupStep, result: GateResult, headBefore: string, headAfter: string, cleanBefore: bool, cleanAfter: bool)

  datatype Execution = Execution(setup: seq<StepRun>, gate: Option<GateResult>, observedAfter: Option<Observed>)

  /** The step passed and left the repository as it found it. */
  predicate Continues(run: StepRun) {
    run.result == GatePassed && run.cleanAfter && run.headAfter == run.headBefore
  }

  /** What the repository looked like before step `i`. */
  predicate SeenBefore(before: Observed, observe: nat -> Option<Observed>, i: nat, seen: Observed) {
    if i == 0 then seen == before else observe(i - 1) == Some(seen)
  }

  predicate IsRunOf(
    declared: seq<SetupStep>, before: Observed, results: nat -> ProcessResult, observe: nat -> Option<Observed>, i: nat,
    run: StepRun)
    requires i < |declared|
  {
    && run.step == declared[i]
    && run.result == results(i)
    && SeenBefore(before, observe, i, Observed(run.headBefore, run.cleanBefore))
    && (observe(i).Some? ==> run.headAfter == observe(i).value.headSha && run.cleanAfter == observe(i).value.clean)
    && (observe(i).None? ==> run.headAfter == run.headBefore && !run.cleanAfter)
  }

  /**
   * The steps that ran are a prefix of the declared ones; every one but the last passed and left the repository alone;
   * and the gate ran exactly when all of them were reached and did.
   */
  predicate IsExecution(
    declared: seq<SetupStep>, before: Observed, results: nat -> ProcessResult, observe: nat -> Option<Observed>,
    e: Execution)
  {
    var n := |e.setup|;
    && n <= |declared|
    && (forall i :: 0 <= i < n ==> IsRunOf(declared, before, results, observe, i, e.setup[i]))
    && (forall i :: 0 <= i < n - 1 ==> Continues(e.setup[i]))
    && (e.gate.Some? ==>
          && n == |declared| && (forall i :: 0 <= i < n ==> Continues(e.setup[i]))
          && e.gate.value == results(n) && e.observedAfter == observe(n))
    && (e.gate.None? ==> n > 0 && !Continues(e.setup[n - 1]) && e.observedAfter == observe(n - 1))
  }

  /** `runGateWithSetup`; process `|declared|` is the gate itself. */
  method RunGateWithSetup(
    declared: seq<SetupStep>, before: Observed, results: nat -> ProcessResult, observe: nat -> Option<Observed>)
    returns (e: Execution)
    ensures IsExecution(declared, before, results, observe, e)
  {
    var setup: seq<StepRun> := [];
    var observed := Some(before);
    for n := 0 to |declared|
      invariant |setup| == n
      invariant observed.Some? && SeenBefore(before, observe, n, observed.value)
      invariant forall i :: 0 <= i < n ==>
                  IsRunOf(declared, before, results, observe, i, setup[i]) && Continues(setup[i])
    {
      var stepBefore := observed;
      if stepBefore.None? { assert false; }
      var stepAfter := observe(n);
      var run := StepRun(
        declared[n], results(n), stepBefore.value.headSha,
        if stepAfter.Some? then stepAfter.value.headSha else stepBefore.value.headSha,
        stepBefore.value.clean, if stepAfter.Some? then stepAfter.value.clean else false);
      setup := setup + [run];
      observed := stepAfter;
      if results(n) != GatePassed || stepAfter.None? || !stepAfter.value.clean
         || stepAfter.value.headSha != stepBefore.value.headSha {
        return Execution(setup, None, stepAfter);
      }
    }
    return Execution(setup, Some(results(|declared|)), observe(|declared|));
  }

  predicate GateExecutionWasInvalidated(e: Execution, before: Observed) {
    || e.observedAfter.None?
    || !e.observedAfter.value.clean
    || e.observedAfter.value.headSha != before.headSha
    || exists run :: run in e.setup
         && (!run.cleanBefore || !run.cleanAfter || run.headBefore != before.headSha || run.headAfter != before.headSha)
  }

  function ClassifyGateOutcome(e: Execution, invalidated: bool): GateResult {
    if invalidated then GateInvalidated
    else if exists run :: run in e.setup && run.result != GatePassed then GateSetupFailed
    else e.gate.GetOr(GateExecutionError)
  }

  /** How many observations were made: one after every step that ran, and one after the gate. */
  function Observations(e: Execution): nat {
    |e.setup| + if e.gate.Some? then 1 else 0
  }

  lemma StandingIsClean(
    declared: seq<SetupStep>, before: Observed, results: nat -> ProcessResult, observe: nat -> Option<Observed>,
    e: Execution)
    requires IsExecution(declared, before, results, observe, e) && !GateExecutionWasInvalidated(e, before)
    ensures e.setup != [] ==> before.clean
    ensures forall i :: 0 <= i < Observations(e) ==> observe(i) == Some(Observed(before.headSha, true))
  {
    if e.setup != [] { assert IsRunOf(declared, before, results, observe, 0, e.setup[0]) && e.setup[0] in e.setup; }
    forall i | 0 <= i < Observations(e) ensures observe(i) == Some(Observed(before.headSha, true)) {
      if i < |e.setup| { assert IsRunOf(declared, before, results, observe, i, e.setup[i]) && e.setup[i] in e.setup; }
    }
  }

  /**
   * An execution stands exactly when the repository was clean at the starting HEAD before its first step and at every
   * observation it made.
   */
  lemma InvalidatedIsExact(
    declared: seq<SetupStep>, before: Observed, results: nat -> ProcessResult, observe: nat -> Option<Observed>,
    e: Execution)
    requires IsExecution(declared, before, results, observe, e)
    ensures !GateExecutionWasInvalidated(e, before)
            <==> && (e.setup != [] ==> before.clean)
                 && forall i :: 0 <= i < Observations(e) ==> observe(i) == Some(Observed(before.headSha, true))
  {
    var n := |e.setup|;
    assert forall i :: 0 <= i < n ==>
        IsRunOf(declared, before, results, observe, i, e.setup[i]) && e.setup[i] in e.setup;
    if n > 0 { assert SeenBefore(before, observe, 0, Observed(e.setup[0].headBefore, e.setup[0].cleanBefore)); }
    if !GateExecutionWasInvalidated(e, before) { StandingIsClean(declared, before, results, observe, e); }
    if (e.setup != [] ==> before.clean)
       && forall i :: 0 <= i < Observations(e) ==> observe(i) == Some(Observed(before.headSha, true)) {
      forall run | run in e.setup
        ensures run.cleanBefore && run.cleanAfter && run.headBefore == before.headSha && run.headAfter == before.headSha
      {
        var i :| 0 <= i < n && e.setup[i] == run;
        assert IsRunOf(declared, before, results, observe, i, run);
        if i > 0 { assert observe(i - 1) == Some(Observed(before.headSha, true)); }
      }
    }
  }

  // ----- what a receipt may record

  datatype RecordedStep = RecordedStep(step: SetupStep, result: GateResult)

  datatype Violation = Violation(index: Option<nat>, reason: string)

  predicate StepMatches(recorded: seq<RecordedStep>, declared: seq<SetupStep>, i: nat)
    requires i < |recorded|
  {
    i < |declared| && recorded[i].step == declared[i]
  }

  function FirstMismatch(recorded: seq<RecordedStep>, declared: seq<SetupStep>, from: nat): (index: Option<nat>)
    requires from <= |recorded|
    ensures index.Some? ==> from <= index.value < |recorded| && !StepMatches(recorded, declared, index.value)
    ensures index.None? ==> forall i :: from <= i < |recorded| ==> StepMatches(recorded, declared, i)
    decreases |recorded| - from
  {
    if from == |recorded| then None
    else if !StepMatches(recorded, declared, from) then Some(from)
    else FirstMismatch(recorded, declared, from + 1)
  }

  function FirstNonPassing(recorded: seq<RecordedStep>, from: nat): (index: Option<nat>)
    requires from <= |recorded|
    ensures index.Some? ==>
              && from <= index.value < |recorded| && recorded[index.value].result != GatePassed
              && forall i :: from <= i < index.value ==> recorded[i].result == GatePassed
    ensures index.None? ==> forall i :: from <= i < |recorded| ==> recorded[i].result == GatePassed
    decreases |recorded| - from
  {
    if from == |recorded| then None
    else if recorded[from].result != GatePassed then Some(from)
    else FirstNonPassing(recorded, from + 1)
  }

  /** Only a result reachable before the gate command ran may record a short sequence. */
  predicate CommandRan(result: GateResult) {
    result != GateSetupFailed && result != GateInvalidated && result != GateAborted
  }

  function RecordedSetupViolation(recorded: seq<RecordedStep>, declared: seq<SetupStep>, result: GateResult)
    : Option<Violation>
  {
    if result == GateSetupFailed && declared == [] then Some(Violation(None, "no setup is declared"))
    else if |recorded| > |declared| then Some(Violation(None, "more steps than declared"))
    else if result == GateSetupFailed && recorded == [] then Some(Violation(None, "the failed step is missing"))
    else if CommandRan(result) && |recorded| != |declared| then Some(Violation(None, "a step is missing"))
    else
      var mismatch := FirstMismatch(recorded, declared, 0);
      if mismatch.Some? then Some(Violation(mismatch, "not the declared step"))
      else
        var firstNonPassing := FirstNonPassing(recorded, 0);
        if firstNonPassing.None? then
          if result == GateSetupFailed then Some(Violation(None, "no step failed")) else None
        else if CommandRan(result) then Some(Violation(firstNonPassing, "the command ran"))
        else if firstNonPassing.value != |recorded| - 1 then Some(Violation(firstNonPassing, "not the last step"))
        else None
  }

  /** The recorded steps are the declared ones up to the first that did not pass. */
  predicate DescribesSetup(recorded: seq<RecordedStep>, declared: seq<SetupStep>, result: GateResult) {
    && |recorded| <= |declared|
    && (forall i :: 0 <= i < |recorded| ==> recorded[i].step == declared[i])
    && (forall i :: 0 <= i < |recorded| - 1 ==> recorded[i].result == GatePassed)
    && (CommandRan(result) ==>
          |recorded| == |declared| && forall i :: 0 <= i < |recorded| ==> recorded[i].result == GatePassed)
    && (result == GateSetupFailed ==> recorded != [] && recorded[|recorded| - 1].result != GatePassed)
  }

  /** The validator finds nothing exactly when the record describes the declared setup. */
  lemma ViolationsAreExact(recorded: seq<RecordedStep>, declared: seq<SetupStep>, result: GateResult)
    ensures RecordedSetupViolation(recorded, declared, result).None? <==> DescribesSetup(recorded, declared, result)
  {
    if FirstMismatch(recorded, declared, 0).None? {
      forall i | 0 <= i < |recorded| ensures i < |declared| && recorded[i].step == declared[i] {
        assert StepMatches(recorded, declared, i);
      }
    }
  }

  function ToRecordedSetup(e: Execution): seq<RecordedStep> {
    seq(|e.setup|, i requires 0 <= i < |e.setup| => RecordedStep(e.setup[i].step, e.setup[i].result))
  }

  /** A sequence cut short by anything but a failed step has a compromised observation to show for it. */
  lemma ShortRunsAreExplained(
    declared: seq<SetupStep>, before: Observed, results: nat -> ProcessResult, observe: nat -> Option<Observed>,
    e: Execution)
    requires IsExecution(declared, before, results, observe, e) && e.gate.None?
    ensures e.setup[|e.setup| - 1].result != GatePassed || GateExecutionWasInvalidated(e, before)
  {
    var n := |e.setup| - 1;
    assert IsRunOf(declared, before, results, observe, n, e.setup[n]) && e.setup[n] in e.setup;
  }

  lemma SomeStepFailed(e: Execution)
    ensures (exists run :: run in e.setup && run.result != GatePassed)
            <==> exists i :: 0 <= i < |e.setup| && e.setup[i].result != GatePassed
  {
    if run :| run in e.setup && run.result != GatePassed {
      var i :| 0 <= i < |e.setup| && e.setup[i] == run;
      assert e.setup[i].result != GatePassed;
    }
    if i :| 0 <= i < |e.setup| && e.setup[i].result != GatePassed { assert e.setup[i] in e.setup; }
  }

  /**
   * Whatever the processes and observations did, and however the caller widens the notion of an invalidated
   * repository, the recorded steps with the classified result satisfy the validator. In particular a run without a
   * gate result is never classified by the `execution_error` fallback.
   */
  lemma RunsSatisfyValidator(
    declared: seq<SetupStep>, before: Observed, results: nat -> ProcessResult, observe: nat -> Option<Observed>,
    e: Execution, invalidated: bool)
    requires IsExecution(declared, before, results, observe, e)
    requires GateExecutionWasInvalidated(e, before) ==> invalidated
    ensures RecordedSetupViolation(ToRecordedSetup(e), declared, ClassifyGateOutcome(e, invalidated)).None?
    ensures e.gate.None? ==> ClassifyGateOutcome(e, invalidated) in {GateInvalidated, GateSetupFailed}
    ensures e.gate.Some? && !invalidated ==> ClassifyGateOutcome(e, invalidated) == e.gate.value
  {
    hide IsRunOf, GateExecutionWasInvalidated;
    var recorded, result := ToRecordedSetup(e), ClassifyGateOutcome(e, invalidated);
    RunsAreDeclared(declared, before, results, observe, e);
    SomeStepFailed(e);
    if e.gate.None? { ShortRunsAreExplained(declared, before, results, observe, e); }
    ViolationsAreExact(recorded, declared, result);
  }

  lemma RunsAreDeclared(
    declared: seq<SetupStep>, before: Observed, results: nat -> ProcessResult, observe: nat -> Option<Observed>,
    e: Execution)
    requires IsExecution(declared, before, results, observe, e)
    ensures forall i :: 0 <= i < |e.setup| ==> e.setup[i].step == declared[i]
    ensures e.gate.Some? ==> e.gate.value != GateSetupFailed && e.gate.value != GateInvalidated
  {
    forall i | 0 <= i < |e.setup| ensures e.setup[i].step == declared[i] {
      assert IsRunOf(declared, before, results, observe, i, e.setup[i]);
    }
  }

  /** The repository was clean at the starting HEAD before any step, and after the first `n` processes. */
  predicate LeftAlone(declared: seq<SetupStep>, before: Observed, observe: nat -> Option<Observed>, n: nat) {
    (declared != [] ==> before.clean) && forall i :: 0 <= i < n ==> observe(i) == Some(Observed(before.headSha, true))
  }

  /** Process `k` is the first that did not pass. */
  predicate FirstFailing(results: nat -> ProcessResult, k: nat) {
    results(k) != GatePassed && forall i :: 0 <= i < k ==> results(i) == GatePassed
  }

  /**
   * What is recorded, from the processes and the observations alone: a pass when all of them passed, a failed setup
   * when a setup step was the first that did not, and otherwise the result of the gate; provided the repository was
   * left alone up to the process that decides, and else an invalidated run.
   */
  lemma RecordedResultIsExact(
    declared: seq<SetupStep>, before: Observed, results: nat -> ProcessResult, observe: nat -> Option<Observed>,
    e: Execution)
    requires IsExecution(declared, before, results, observe, e)
    ensures
      var recorded, n := ClassifyGateOutcome(e, GateExecutionWasInvalidated(e, before)), |declared|;
      && (recorded == GatePassed
          <==> LeftAlone(declared, before, observe, n + 1) && forall i :: 0 <= i <= n ==> results(i) == GatePassed)
      && (recorded == GateSetupFailed
          <==> exists k :: 0 <= k < n && FirstFailing(results, k) && LeftAlone(declared, before, observe, k + 1))
      && (recorded !in {GatePassed, GateSetupFailed, GateInvalidated}
          <==> LeftAlone(declared, before, observe, n + 1) && FirstFailing(results, n))
      && (recorded !in {GateSetupFailed, GateInvalidated} ==> recorded == results(n))
  {
    hide IsExecution, GateExecutionWasInvalidated, IsRunOf;
    InvalidatedIsExact(declared, before, results, observe, e);
    SetupIsExact(declared, before, results, observe, e);
    SomeStepFailed(e);
    var n := |declared|;
    if !GateExecutionWasInvalidated(e, before) && e.gate.None? {
      ShortRunsAreExplained(declared, before, results, observe, e);
      assert FirstFailing(results, |e.setup| - 1) && LeftAlone(declared, before, observe, |e.setup|);
    }
    forall k | 0 <= k < n && FirstFailing(results, k) && LeftAlone(declared, before, observe, k + 1)
      ensures |e.setup| == k + 1 && e.gate.None?
    {
      StopsAtFailure(declared, before, results, observe, e, k);
    }
    if LeftAlone(declared, before, observe, n + 1) && forall i :: 0 <= i < n ==> results(i) == GatePassed {
      RunsToGate(declared, before, results, observe, e);
    }
  }

  /** The setup steps report the processes that ran, and the gate is the last process. */
  lemma SetupIsExact(
    declared: seq<SetupStep>, before: Observed, results: nat -> ProcessResult, observe: nat -> Option<Observed>,
    e: Execution)
    requires IsExecution(declared, before, results, observe, e)
    ensures |e.setup| <= |declared|
    ensures forall i :: 0 <= i < |e.setup| ==> e.setup[i].result == results(i)
    ensures forall i :: 0 <= i < |e.setup| - 1 ==> results(i) == GatePassed
    ensures if e.gate.Some?
            then |e.setup| == |declared| && e.gate.value == results(|declared|)
                 && forall i :: 0 <= i < |declared| ==> results(i) == GatePassed
            else e.setup != []
  {
    assert forall i :: 0 <= i < |e.setup| ==> IsRunOf(declared, before, results, observe, i, e.setup[i]);
    assert forall i :: 0 <= i < |e.setup| - 1 ==> Continues(e.setup[i]);
  }

  /** A step that ran is the last when it did not pass, and not the last of a run cut short when nothing was wrong. */
  lemma RunStopsOrContinues(
    declared: seq<SetupStep>, before: Observed, results: nat -> ProcessResult, observe: nat -> Option<Observed>,
    e: Execution, i: nat)
    requires IsExecution(declared, before, results, observe, e) && i < |e.setup|
    requires LeftAlone(declared, before, observe, i + 1)
    ensures if results(i) == GatePassed then i < |e.setup| - 1 || e.gate.Some? else i == |e.setup| - 1 && e.gate.None?
  {
    assert IsRunOf(declared, before, results, observe, i, e.setup[i]);
    if i > 0 { assert observe(i - 1) == Some(Observed(before.headSha, true)); }
    assert e.setup[i].headBefore == before.headSha;
    assert results(i) == GatePassed ==> Continues(e.setup[i]);
    if i < |e.setup| - 1 { assert Continues(e.setup[i]); }
  }

  lemma StopsAtFailure(
    declared: seq<SetupStep>, before: Observed, results: nat -> ProcessResult, observe: nat -> Option<Observed>,
    e: Execution, k: nat)
    requires IsExecution(declared, before, results, observe, e)
    requires k < |declared| && FirstFailing(results, k) && LeftAlone(declared, before, observe, k + 1)
    ensures |e.setup| == k + 1 && e.gate.None?
  {
    hide IsExecution;
    SetupIsExact(declared, before, results, observe, e);
    if |e.setup| <= k && e.setup != [] {
      RunStopsOrContinues(declared, before, results, observe, e, |e.setup| - 1);
    } else if |e.setup| > k {
      RunStopsOrContinues(declared, before, results, observe, e, k);
    }
  }

  lemma RunsToGate(
    declared: seq<SetupStep>, before: Observed, results: nat -> ProcessResult, observe: nat -> Option<Observed>,
    e: Execution)
    requires IsExecution(declared, before, results, observe, e) && LeftAlone(declared, before, observe, |declared| + 1)
    requires forall i :: 0 <= i < |declared| ==> results(i) == GatePassed
    ensures e.gate.Some?
  {
    hide IsExecution;
    SetupIsExact(declared, before, results, observe, e);
    if e.setup != [] { RunStopsOrContinues(declared, before, results, observe, e, |e.setup| - 1); }
  }

  // ----- the signer

  datatype JobResult = JobSucceeded | JobFailed | JobCancelled

  datatype Report = Report(
    result: GateResult, exitStatus: Option<int>, signal: Option<string>, cleanBefore: bool, cleanAfter: bool,
    headBefore: string, headAfter: string, sourceHead: string, declared: seq<SetupStep>, recorded: seq<RecordedStep>)

  predicate CleanPass(report: Report) {
    && report.result == GatePassed && report.exitStatus == Some(0) && report.signal.None?
    && report.cleanBefore && report.cleanAfter
    && report.headBefore == report.sourceHead && report.headAfter == report.sourceHead
  }

  /** `None` where the source refuses to sign. */
  function AuthoritativeGateResult(report: Report, job: JobResult): Option<GateResult> {
    match job
    case JobCancelled => Some(GateAborted)
    case JobFailed => Some(if report.result == GatePassed then GateFailed else report.result)
    case JobSucceeded => if CleanPass(report) then Some(GatePassed) else None
  }

  /** `authorizeGateReportForSigning`, once every field has matched the trusted context. */
  function AuthorizeForSigning(report: Report, job: JobResult): Option<Report> {
    var result := AuthoritativeGateResult(report, job);
    if result.None? then None
    else
      Some(report.(
        result := result.value,
        exitStatus := if result.value == GatePassed then Some(0)
                      else if report.exitStatus == Some(0) || report.exitStatus.None? then Some(1)
                      else report.exitStatus,
        signal := if result.value == GatePassed then None else report.signal))
  }

  /**
   * Signing keeps the record valid under the relabelled result, and the signed result passes exactly when the job
   * succeeded on a clean pass; a signed report exits 0 exactly when it passed.
   */
  lemma SigningKeepsSetup(report: Report, job: JobResult)
    requires RecordedSetupViolation(report.recorded, report.declared, report.result).None?
    ensures
      var signed := AuthorizeForSigning(report, job);
      && (signed.Some? ==>
            && RecordedSetupViolation(signed.value.recorded, signed.value.declared, signed.value.result).None?
            && signed.value.recorded == report.recorded && signed.value.declared == report.declared
            && (signed.value.result == GatePassed <==> job == JobSucceeded)
            && (signed.value.result == GatePassed <==> signed.value.exitStatus == Some(0))
            && (signed.value.result == GatePassed ==> signed.value == report)
            && (signed.value.exitStatus.Some?)
            && (job == JobFailed && report.result != GatePassed ==> signed.value.result == report.result))
      && (signed.None?
          <==> job == JobSucceeded
               && (|| report.result != GatePassed || report.exitStatus != Some(0) || report.signal.Some?
                   || !report.cleanBefore || !report.cleanAfter
                   || report.headBefore != report.sourceHead || report.headAfter != report.sourceHead))
  {
    ViolationsAreExact(report.recorded, report.declared, report.result);
    var signed := AuthorizeForSigning(report, job);
    if signed.Some? {
      ViolationsAreExact(report.recorded, report.declared, signed.value.result);
    }
  }
}

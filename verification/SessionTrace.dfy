/**
 * Properties of whole session histories. A trace lists the transitions applied to one fresh session, each with the
 * request input and the guard context it was admitted under.
 */
module SessionTrace {
  import opened Options
  import opened JsonValues
  import opened Lifecycle
  import opened SessionTransition

  datatype Applied = Applied(source: TaskStatus, target: TaskStatus, input: Json, context: GuardContext)

  function StateAfter(trace: seq<Applied>): TaskStatus {
    if trace == [] then Queued else trace[|trace| - 1].target
  }

  function BlockedFromAfter(trace: seq<Applied>): Option<TaskStatus> {
    if trace != [] && trace[|trace| - 1].target == Blocked then Some(trace[|trace| - 1].source) else None
  }

  /** The lifecycle state underneath a block. */
  function EffectiveState(trace: seq<Applied>): TaskStatus {
    if StateAfter(trace) == Blocked then BlockedFromAfter(trace).GetOr(Queued) else StateAfter(trace)
  }

  function Targets(trace: seq<Applied>): seq<TaskStatus> {
    seq(|trace|, i requires 0 <= i < |trace| => trace[i].target)
  }

  function PhaseAfter(trace: seq<Applied>): Phase {
    DeriveLifecyclePhase(Targets(trace), Some(Queued))
  }

  ghost predicate IsStep(step: Applied, source: TaskStatus, target: TaskStatus) {
    step.source == source && step.target == target
  }

  function RepairEntries(trace: seq<Applied>): nat {
    if trace == [] then 0
    else
      var last := trace[|trace| - 1];
      RepairEntries(trace[..|trace| - 1]) + if IsRepairEntry(last.source, last.target) then 1 else 0
  }

  /** The context may be out of date, but it is not ahead of the session: a phase that has begun has begun. */
  ghost predicate Dated(context: GuardContext, before: seq<Applied>) {
    context.phase == Some(PostPr) ==> PhaseAfter(before) == PostPr
  }

  /** The context describes the session as it stands when the transition is applied. */
  ghost predicate Fresh(context: GuardContext, before: seq<Applied>) {
    && (context.phase.Some? ==> context.phase.value == PhaseAfter(before))
    && (context.attemptsUsed.Some? ==> context.attemptsUsed.value == RepairEntries(before))
  }

  ghost predicate Justified(before: seq<Applied>, step: Applied) {
    && step.source == StateAfter(before)
    && EvaluateLifecycleTransition(
         step.source, step.target, BlockedFromAfter(before), Some(PhaseAfter(before))).TransitionAllowed?
    && EvaluateTransitionGuards(
         step.source, step.target, step.input, BlockedFromAfter(before), step.context).GuardsAllowed?
    && Dated(step.context, before)
  }

  ghost predicate Valid(trace: seq<Applied>) {
    forall i :: 0 <= i < |trace| ==> Justified(trace[..i], trace[i])
  }

  /** Every transition was admitted under a context that was still true. */
  ghost predicate Current(trace: seq<Applied>) {
    forall i :: 0 <= i < |trace| ==> Fresh(trace[i].context, trace[..i])
  }

  lemma CurrentPrefix(trace: seq<Applied>, n: nat)
    requires Current(trace) && n <= |trace|
    ensures Current(trace[..n])
  {
    forall i | 0 <= i < n ensures Fresh(trace[..n][i].context, trace[..n][..i]) {
      assert trace[..n][..i] == trace[..i];
    }
  }

  lemma CurrentExtend(before: seq<Applied>, step: Applied)
    requires Current(before) && Fresh(step.context, before)
    ensures Current(before + [step])
  {
    var trace := before + [step];
    forall i | 0 <= i < |trace| ensures Fresh(trace[i].context, trace[..i]) {
      assert trace[..i] == if i < |before| then before[..i] else before;
    }
  }

  lemma ValidPrefix(trace: seq<Applied>, n: nat)
    requires Valid(trace) && n <= |trace|
    ensures Valid(trace[..n])
  {
    forall i | 0 <= i < n ensures Justified(trace[..n][..i], trace[..n][i]) {
      assert trace[..n][..i] == trace[..i];
    }
  }

  // ----- what one admitted step had to show

  ghost predicate BindsPlan(step: Applied) {
    IsStep(step, Framed, ProofReady) && step.context.boundPlan.Some?
  }

  /** A clean pre-PR review of the live HEAD, with passing local and CI proof from the plan's clean branch. */
  ghost predicate EntersReviewClean(step: Applied) {
    var review := ReadPrePrReviewEvidence(step.input);
    && IsStep(step, PrePrReviewing, Reviewing)
    && review.Some?
    && review.value.outcome == Clean
    && review.value.findings == []
    && LiveHead(step.context) == Some(review.value.headSha)
    && step.context.evidence == Some(Passed)
    && step.context.ci == Some(CiPassed)
    && step.context.plan.Some?
    && OnPlanBranch(step.context.plan.value, step.context.repository.value)
  }

  /** A current, unblocked, human-approved review of the live HEAD, an observed merge, and passing proof. */
  ghost predicate CompletesUnderAuthority(step: Applied) {
    && IsStep(step, ReadyForHuman, Completed)
    && CurrentReviewAtLiveHead(step.context)
    && var review := step.context.review.value;
    && review.decision != Some(ChangesRequested)
    && review.blockingFindings == []
    && (exists a :: a in review.approvals && a.actorType == USER && Some(a.commitSha) == LiveHead(step.context))
    && review.merged
    && step.context.evidence == Some(Passed)
    && step.context.ci == Some(CiPassed)
  }

  lemma PlanStepBindsPlan(step: Applied, blockedFrom: Option<TaskStatus>)
    requires EvaluateTransitionGuards(step.source, step.target, step.input, blockedFrom, step.context).GuardsAllowed?
    ensures IsStep(step, Framed, ProofReady) ==> BindsPlan(step)
  {
  }

  lemma ReviewEntryIsClean(step: Applied, blockedFrom: Option<TaskStatus>)
    requires EvaluateTransitionGuards(step.source, step.target, step.input, blockedFrom, step.context).GuardsAllowed?
    ensures IsStep(step, PrePrReviewing, Reviewing) ==> EntersReviewClean(step)
  {
  }

  lemma CompletionIsAuthorised(step: Applied, blockedFrom: Option<TaskStatus>)
    requires EvaluateTransitionGuards(step.source, step.target, step.input, blockedFrom, step.context).GuardsAllowed?
    ensures IsStep(step, ReadyForHuman, Completed) ==> CompletesUnderAuthority(step)
  {
  }

  lemma RepairEntryHasBudget(step: Applied, blockedFrom: Option<TaskStatus>)
    requires EvaluateTransitionGuards(step.source, step.target, step.input, blockedFrom, step.context).GuardsAllowed?
    requires IsRepairEntry(step.source, step.target)
    ensures step.context.attemptsUsed.Some? && step.context.attemptsUsed.value < REPAIR_BUDGET
    ensures step.source == Verifying ==> step.context.phase == Some(PostPr)
  {
  }

  // ----- the invariant of every reachable history

  const BEFORE_REVIEW := {Queued, Framed, ProofReady, Implementing, Verifying, PrePrReviewing}

  const AFTER_REVIEW := {Verifying, Repairing, Reviewing, ReadyForHuman, Completed}

  ghost predicate HasReviewed(trace: seq<Applied>) {
    exists i :: 0 <= i < |trace| && trace[i].target == Reviewing
  }

  ghost predicate OnlyAt(trace: seq<Applied>, source: TaskStatus, target: TaskStatus, k: int) {
    0 <= k < |trace| && forall i :: 0 <= i < |trace| ==> (IsStep(trace[i], source, target) <==> i == k)
  }

  ghost predicate Nowhere(trace: seq<Applied>, source: TaskStatus, target: TaskStatus) {
    forall i :: 0 <= i < |trace| ==> !IsStep(trace[i], source, target)
  }

  ghost predicate History(trace: seq<Applied>) {
    && (StateAfter(trace) == Blocked <==> BlockedFromAfter(trace).Some?)
    && EffectiveState(trace) != Blocked
    && (BlockedFromAfter(trace).Some? ==> EffectiveState(trace) != Completed)
    && (PhaseAfter(trace) == PostPr <==> HasReviewed(trace))
    && EffectiveState(trace) in (if HasReviewed(trace) then AFTER_REVIEW else BEFORE_REVIEW)
    && (if EffectiveState(trace) in {Queued, Framed}
        then Nowhere(trace, Framed, ProofReady)
        else exists k :: OnlyAt(trace, Framed, ProofReady, k))
    && (if HasReviewed(trace)
        then exists k :: OnlyAt(trace, PrePrReviewing, Reviewing, k)
        else Nowhere(trace, PrePrReviewing, Reviewing))
  }

  lemma PhaseExtend(before: seq<Applied>, step: Applied)
    ensures PhaseAfter(before + [step]) == if step.target in POST_PR_STATES then PostPr else PhaseAfter(before)
    ensures HasReviewed(before + [step]) <==> HasReviewed(before) || step.target == Reviewing
  {
    var trace := before + [step];
    assert forall i :: 0 <= i < |before| ==> Targets(trace)[i] == Targets(before)[i] && trace[i] == before[i];
    assert Targets(trace)[|before|] == step.target && trace[|before|] == step;
  }

  lemma NowhereExtend(before: seq<Applied>, step: Applied, source: TaskStatus, target: TaskStatus)
    requires Nowhere(before, source, target)
    ensures !IsStep(step, source, target) ==> Nowhere(before + [step], source, target)
    ensures IsStep(step, source, target) ==> OnlyAt(before + [step], source, target, |before|)
  {
    var trace := before + [step];
    assert forall i :: 0 <= i < |before| ==> trace[i] == before[i];
  }

  lemma OnlyAtExtend(before: seq<Applied>, step: Applied, source: TaskStatus, target: TaskStatus)
    requires exists k :: OnlyAt(before, source, target, k)
    requires !IsStep(step, source, target)
    ensures exists k :: OnlyAt(before + [step], source, target, k)
  {
    var trace := before + [step];
    var k :| OnlyAt(before, source, target, k);
    assert forall i :: 0 <= i < |before| ==> trace[i] == before[i];
    assert OnlyAt(trace, source, target, k);
  }

  /** How one justified step moves the state underneath a block. */
  lemma EffectiveStep(before: seq<Applied>, step: Applied)
    requires History(before) && Justified(before, step)
    ensures
      var after := before + [step];
      if step.source == Blocked || step.target == Blocked then EffectiveState(after) == EffectiveState(before)
      else
        && EffectiveState(after) == step.target
        && EffectiveState(before) == step.source
        && IsForward(step.source, step.target)
    ensures StateAfter(before + [step]) == Blocked <==> BlockedFromAfter(before + [step]).Some?
    ensures step.source == StateAfter(before)
  {
    hide EvaluateTransitionGuards, Dated;
  }

  lemma RepairEntryGuard(before: seq<Applied>, step: Applied)
    requires Justified(before, step) && IsRepairEntry(step.source, step.target)
    ensures Fresh(step.context, before) ==> RepairEntries(before) < REPAIR_BUDGET
    ensures step.source == Verifying ==> PhaseAfter(before) == PostPr
  {
    RepairEntryHasBudget(step, BlockedFromAfter(before));
  }

  lemma HistoryStep(before: seq<Applied>, step: Applied)
    requires History(before) && Justified(before, step)
    ensures History(before + [step])
  {
    hide EvaluateTransitionGuards, PhaseAfter, OnlyAt, Nowhere, HasReviewed, Dated;
    EffectiveStep(before, step);
    PhaseExtend(before, step);
    if EffectiveState(before) in {Queued, Framed} { NowhereExtend(before, step, Framed, ProofReady); }
    else { OnlyAtExtend(before, step, Framed, ProofReady); }
    if HasReviewed(before) { OnlyAtExtend(before, step, PrePrReviewing, Reviewing); }
    else { NowhereExtend(before, step, PrePrReviewing, Reviewing); }
    if IsRepairEntry(step.source, step.target) { RepairEntryGuard(before, step); }
  }

  lemma EmptyHistory()
    ensures History([]) && Current([]) && ForwardPath([])
  {
  }

  lemma {:induction false} ValidIsHistory(trace: seq<Applied>)
    requires Valid(trace)
    ensures History(trace)
  {
    hide Justified, PhaseAfter, HasReviewed, OnlyAt, Nowhere;
    if trace == [] {
      EmptyHistory();
    } else {
      var n := |trace| - 1;
      ValidPrefix(trace, n);
      ValidIsHistory(trace[..n]);
      HistoryStep(trace[..n], trace[n]);
      assert trace == trace[..n] + [trace[n]];
    }
  }

  // ----- the phase is one-way

  /**
   * Once `reviewing` has been entered, the session and any state it is blocked from stay on the post-PR side of the
   * graph for the rest of the history.
   */
  lemma PhaseIsOneWay(trace: seq<Applied>, n: nat)
    requires Valid(trace) && n <= |trace|
    requires exists i :: 0 <= i < n && trace[i].target == Reviewing
    ensures EffectiveState(trace[..n]) in AFTER_REVIEW
    ensures StateAfter(trace[..n]) in AFTER_REVIEW + {Blocked}
    ensures BlockedFromAfter(trace[..n]).Some? ==> BlockedFromAfter(trace[..n]).value in AFTER_REVIEW - {Completed}
  {
    hide EvaluateTransitionGuards, EvaluateLifecycleTransition, Valid, Justified;
    ValidPrefix(trace, n);
    ValidIsHistory(trace[..n]);
    var i :| 0 <= i < n && trace[i].target == Reviewing;
    assert trace[..n][i].target == Reviewing;
  }

  // ----- repair budget

  /** No history under current contexts holds more than three repair entries. */
  lemma {:induction false} RepairBudgetHolds(trace: seq<Applied>)
    requires Valid(trace) && Current(trace)
    ensures RepairEntries(trace) <= REPAIR_BUDGET
  {
    hide EvaluateTransitionGuards, EvaluateLifecycleTransition, Fresh, Dated, PhaseAfter;
    if trace != [] {
      var n := |trace| - 1;
      ValidPrefix(trace, n);
      CurrentPrefix(trace, n);
      RepairBudgetHolds(trace[..n]);
      if IsRepairEntry(trace[n].source, trace[n].target) {
        assert Justified(trace[..n], trace[n]);
        RepairEntryGuard(trace[..n], trace[n]);
      }
    }
  }

  /** No repair is entered before `reviewing` has been. */
  lemma RepairsFollowReview(trace: seq<Applied>, n: nat)
    requires Valid(trace) && n < |trace| && trace[n].target == Repairing
    ensures exists i :: 0 <= i < n && trace[i].target == Reviewing
  {
    hide EvaluateTransitionGuards, EvaluateLifecycleTransition, Valid, Justified;
    ValidPrefix(trace, n + 1);
    ValidIsHistory(trace[..n + 1]);
    assert trace[..n + 1][n] == trace[n];
    var i :| 0 <= i < n + 1 && trace[..n + 1][i].target == Reviewing;
    assert trace[i].target == Reviewing;
  }

  // ----- blocking is a stutter

  ghost predicate IsBlockOrRecovery(step: Applied) {
    step.source == Blocked || step.target == Blocked
  }

  /** The history with every block and every recovery left out. */
  ghost function Erase(trace: seq<Applied>): (erased: seq<Applied>) {
    if trace == [] then []
    else
      var last := trace[|trace| - 1];
      Erase(trace[..|trace| - 1]) + if IsBlockOrRecovery(last) then [] else [last]
  }

  ghost predicate ForwardPath(trace: seq<Applied>) {
    forall i :: 0 <= i < |trace| ==>
      trace[i].source == StateAfter(trace[..i]) && IsForward(trace[i].source, trace[i].target)
  }

  lemma UnblockedStepIgnoresBlock(before: seq<Applied>, erased: seq<Applied>, step: Applied)
    requires Justified(before, step) && !IsBlockOrRecovery(step)
    requires StateAfter(before) == StateAfter(erased)
    requires PhaseAfter(before) == PhaseAfter(erased) && RepairEntries(before) == RepairEntries(erased)
    ensures Justified(erased, step)
    ensures Fresh(step.context, before) ==> Fresh(step.context, erased)
  {
  }

  lemma JustifiedExtend(before: seq<Applied>, step: Applied)
    requires Valid(before) && Justified(before, step)
    ensures Valid(before + [step])
  {
    var trace := before + [step];
    forall i | 0 <= i < |trace| ensures Justified(trace[..i], trace[i]) {
      assert trace[..i] == if i < |before| then before[..i] else before;
    }
  }

  /**
   * Erasing blocks and recoveries leaves a history that is itself valid, and current if the whole was; it runs along
   * the forward graph from `queued`, reaches the same state underneath, and has used the same repairs.
   */
  lemma {:induction false} BlockingIsAStutter(trace: seq<Applied>)
    requires Valid(trace)
    ensures Valid(Erase(trace)) && ForwardPath(Erase(trace))
    ensures Current(trace) ==> Current(Erase(trace))
    ensures StateAfter(Erase(trace)) == EffectiveState(trace)
    ensures PhaseAfter(Erase(trace)) == PhaseAfter(trace)
    ensures RepairEntries(Erase(trace)) == RepairEntries(trace)
  {
    hide EvaluateTransitionGuards, EvaluateLifecycleTransition, Justified, History, PhaseAfter, Fresh, Current,
      ForwardPath;
    if trace == [] {
      EmptyHistory();
    } else {
      var n := |trace| - 1;
      var before, step := trace[..n], trace[n];
      assert trace == before + [step];
      ValidPrefix(trace, n);
      if Current(trace) { CurrentPrefix(trace, n); }
      ValidIsHistory(before);
      BlockingIsAStutter(before);
      EffectiveStep(before, step);
      PhaseExtend(before, step);
      var erased := Erase(before);
      if IsBlockOrRecovery(step) {
        StutterKeepsPhase(before, step);
        assert Erase(trace) == erased;
      } else {
        UnblockedStepIgnoresBlock(before, erased, step);
        JustifiedExtend(erased, step);
        PhaseExtend(erased, step);
        EraseExtend(erased, step);
        if Current(trace) {
          LastIsFresh(before, step);
          CurrentExtend(erased, step);
        }
      }
    }
  }

  lemma LastIsFresh(before: seq<Applied>, step: Applied)
    requires Current(before + [step])
    ensures Fresh(step.context, before)
  {
    var trace := before + [step];
    assert trace[..|before|] == before && Fresh(trace[|before|].context, trace[..|before|]);
  }

  lemma EraseExtend(erased: seq<Applied>, step: Applied)
    requires ForwardPath(erased) && step.source == StateAfter(erased) && IsForward(step.source, step.target)
    ensures ForwardPath(erased + [step])
    ensures RepairEntries(erased + [step])
            == RepairEntries(erased) + if IsRepairEntry(step.source, step.target) then 1 else 0
  {
    var trace := erased + [step];
    assert trace[..|erased|] == erased;
    forall i | 0 <= i < |trace|
      ensures trace[i].source == StateAfter(trace[..i]) && IsForward(trace[i].source, trace[i].target)
    {
      assert trace[..i] == if i < |erased| then erased[..i] else erased;
    }
  }

  /** Recovery re-enters the recorded state, so it opens no new phase. */
  lemma StutterKeepsPhase(before: seq<Applied>, step: Applied)
    requires History(before) && Justified(before, step) && IsBlockOrRecovery(step)
    ensures PhaseAfter(before + [step]) == PhaseAfter(before)
    ensures RepairEntries(before + [step]) == RepairEntries(before)
  {
    hide EvaluateTransitionGuards, Dated;
    PhaseExtend(before, step);
    assert (before + [step])[..|before|] == before;
  }

  // ----- completion needs the whole path

  /**
   * A completed history bound its plan once, entered review once and cleanly, and ended with one completion under
   * human authority. Nothing follows completion.
   */
  lemma CompletionNeedsTheWholePath(trace: seq<Applied>)
    requires Valid(trace) && StateAfter(trace) == Completed
    ensures exists p, r ::
              && 0 <= p < r < |trace| - 1
              && OnlyAt(trace, Framed, ProofReady, p) && BindsPlan(trace[p])
              && OnlyAt(trace, PrePrReviewing, Reviewing, r) && EntersReviewClean(trace[r])
    ensures CompletesUnderAuthority(trace[|trace| - 1])
    ensures forall i :: 0 <= i < |trace| && trace[i].target == Completed ==> i == |trace| - 1
  {
    hide EvaluateLifecycleTransition, CompletesUnderAuthority, EntersReviewClean, Dated, EvaluateTransitionGuards,
      PhaseAfter;
    var n := |trace| - 1;
    ValidIsHistory(trace);
    var p :| OnlyAt(trace, Framed, ProofReady, p);
    var r :| OnlyAt(trace, PrePrReviewing, Reviewing, r);
    assert IsStep(trace[p], Framed, ProofReady) && IsStep(trace[r], PrePrReviewing, Reviewing);
    assert Justified(trace[..p], trace[p]) && Justified(trace[..r], trace[r]) && Justified(trace[..n], trace[n]);
    PlanStepBindsPlan(trace[p], BlockedFromAfter(trace[..p]));
    ReviewEntryIsClean(trace[r], BlockedFromAfter(trace[..r]));
    CompletionStep(trace, n);
    CompletionIsAuthorised(trace[n], BlockedFromAfter(trace[..n]));
    PlanPrecedesReview(trace, p, r);
    forall i | 0 <= i < |trace| && trace[i].target == Completed ensures i == n {
      NothingFollowsCompletion(trace, i);
    }
  }

  lemma CompletionStep(trace: seq<Applied>, n: nat)
    requires Valid(trace) && n < |trace| && trace[n].target == Completed
    ensures trace[n].source == ReadyForHuman
  {
    hide EvaluateTransitionGuards, Dated, PhaseAfter, HasReviewed, OnlyAt, Nowhere;
    ValidPrefix(trace, n);
    ValidIsHistory(trace[..n]);
    EffectiveStep(trace[..n], trace[n]);
  }

  lemma PlanPrecedesReview(trace: seq<Applied>, p: int, r: int)
    requires Valid(trace) && OnlyAt(trace, Framed, ProofReady, p) && OnlyAt(trace, PrePrReviewing, Reviewing, r)
    ensures p < r
  {
    assert IsStep(trace[r], PrePrReviewing, Reviewing) && Justified(trace[..r], trace[r]);
    ValidPrefix(trace, r);
    ValidIsHistory(trace[..r]);
    var k :| OnlyAt(trace[..r], Framed, ProofReady, k);
    assert IsStep(trace[..r][k], Framed, ProofReady) && trace[..r][k] == trace[k];
  }

  lemma CompletedHasNoSuccessor(trace: seq<Applied>, i: nat)
    requires i + 1 < |trace| && trace[i].target == Completed
    ensures !Justified(trace[..i + 1], trace[i + 1])
  {
    assert trace[..i + 1][i] == trace[i];
  }

  lemma NothingFollowsCompletion(trace: seq<Applied>, i: nat)
    requires Valid(trace) && i < |trace| && trace[i].target == Completed
    ensures i == |trace| - 1
  {
    if i + 1 < |trace| { CompletedHasNoSuccessor(trace, i); }
  }
}

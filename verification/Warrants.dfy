/**
 * What every transition takes, said of the stored rows, the request and the checkout alone: the guards, the context
 * they are given and the evidence behind it come to exactly this.
 */
module Warrants {
  import opened Options
  import opened JsonValues
  import opened Lifecycle
  import opened SessionTransition
  import opened ReviewReading
  import opened ProofEvidence
  import opened StoreTables
  import opened SessionStore
  import opened StoreInvariant
  import opened StoreSteps
  import opened StoreRuns
  import opened SessionService
  import opened ServiceRuns
  import opened ServedTraces
  import opened StoredEvidence
  import opened Courses

  // ----- what the request brings

  /** The object says something other than white space under that name. */
  ghost predicate Says(value: Json, name: string) {
    exists text: Text :: value.Obj? && Ascii(name) in value.members && value.members[Ascii(name)] == Str(text)
                         && exists i :: 0 <= i < |text| && !IsWhitespace(text[i])
  }

  ghost predicate Tells(input: Json, part: string, names: set<string>) {
    && input.Obj? && Ascii(part) in input.members
    && forall name :: name in names ==> Says(input.members[Ascii(part)], name)
  }

  ghost predicate BringsNoReview(input: Json) {
    input.Obj? ==> Ascii("pre_pr_review") !in input.members
  }

  /** The request carries a pre-PR review of this commit with this outcome. */
  ghost predicate BringsReview(input: Json, outcome: ReviewOutcome, head: Text) {
    exists e :: IsReview(e) && Carries(input, e) && e.outcome == outcome && e.headSha == head
  }

  lemma SaysIsExact(value: Json, name: string)
    ensures HasRequiredTextField(value, name) <==> Says(value, name)
  {
    if HasRequiredTextField(value, name) {
      var text := TextField(value, name).value;
      var u :| u in text && !IsWhitespace(u);
      var i :| 0 <= i < |text| && text[i] == u;
    }
    if Says(value, name) {
      var text :| value.Obj? && Ascii(name) in value.members && value.members[Ascii(name)] == Str(text)
                  && exists i :: 0 <= i < |text| && !IsWhitespace(text[i]);
      var i :| 0 <= i < |text| && !IsWhitespace(text[i]);
      assert text[i] in text;
    }
  }

  lemma BlockIsExact(input: Json)
    ensures HasBlockEvidence(input) <==> Tells(input, "block", {"reason", "evidence_ref", "recovery", "stop_code"})
  {
    hide HasRequiredTextField, Says;
    forall value, name | true ensures HasRequiredTextField(value, name) <==> Says(value, name) {
      SaysIsExact(value, name);
    }
  }

  lemma RecoveryIsExact(input: Json)
    ensures HasRecoveryEvidence(input) <==> Tells(input, "recovery", {"approved_by", "evidence_ref", "reason"})
  {
    hide HasRequiredTextField, Says;
    forall value, name | true ensures HasRequiredTextField(value, name) <==> Says(value, name) {
      SaysIsExact(value, name);
    }
  }

  lemma ReviewIsExact(input: Json, outcome: ReviewOutcome, head: Text)
    ensures
      var read := ReadPrePrReviewEvidence(input);
      BringsReview(input, outcome, head) <==> read.Some? && read.value.outcome == outcome && read.value.headSha == head
    ensures BringsNoReview(input) <==> Field(input, "pre_pr_review").None?
    ensures Field(input, "pre_pr_review").None? ==> ReadPrePrReviewEvidence(input).None?
  {
    hide IsReview, Carries;
    var read := ReadPrePrReviewEvidence(input);
    if read.Some? { ReviewReadingIsExact(input, read.value); }
    if e :| IsReview(e) && Carries(input, e) && e.outcome == outcome && e.headSha == head {
      ReviewReadingIsExact(input, e);
    }
  }

  // ----- what the rows and the checkout show

  /** `reviewing` has been entered. */
  ghost predicate HasBeenReviewed(v: View) {
    exists i :: 0 <= i < |v.transitions| && v.transitions[i].target in {Reviewing, ReadyForHuman, Completed}
  }

  /** A clean checkout of the plan's branch. */
  ghost predicate OnBranch(v: View, observed: Observation) {
    v.plan.Some? && observed.repository.clean && observed.repository.branch == Some(v.plan.value.baselineBranch)
  }

  /** Something was committed between this commit, named in full, and the HEAD. */
  ghost predicate Advanced(basis: Text, observed: Observation) {
    && |basis| == 40 && (forall i :: 0 <= i < 40 ==> 0x30 <= basis[i] <= 0x39 || 0x61 <= basis[i] <= 0x66)
    && basis != observed.repository.headSha
    && observed.hasCommittedDiff(basis, observed.repository.headSha)
  }

  /** A gate really failed at the HEAD, and nothing graver is the matter. */
  ghost predicate ProofFailed(v: View, observed: Observation) {
    && v.plan.Some?
    && var plan, head := v.plan.value, Some(observed.repository.headSha);
    && (exists g :: g in plan.gates && GateRefuted(plan, v.gates, g, head, observed.inspection))
    && (forall g :: g in plan.gates ==> !GateSetupBroke(plan, v.gates, g, head, observed.inspection))
    && (forall g :: g in plan.gates ==> !GateTampered(v.gates, g, observed.inspection))
  }

  /** The last snapshot verifies, and is of this plan and of the HEAD. */
  ghost predicate ReviewIsCurrent(v: View, observed: Observation) {
    && v.plan.Some? && v.plan.value.signedReview && v.reviews != [] && observed.repository.headSha != []
    && var last := v.reviews[|v.reviews| - 1];
    && last.id in observed.inspection.verifiedReviews && last.planSha256 == v.plan.value.sha256
    && last.subjectHeadSha == observed.repository.headSha
  }

  /** Somebody asked for changes, or a thread is open. */
  ghost predicate ReviewBlocks(v: View) {
    && v.reviews != []
    && var last := v.reviews[|v.reviews| - 1];
    last.decision == Some(ChangesRequested) || exists t :: t in last.threads && !t.resolved && !t.outdated
  }

  /** A person approved the HEAD, and the pull request was seen merged. */
  ghost predicate ReviewConcludes(v: View, observed: Observation) {
    && v.reviews != []
    && var last := v.reviews[|v.reviews| - 1];
    && last.merged
    && exists a :: a in last.approvals && a.actorType == USER && a.commitSha == observed.repository.headSha
  }

  // ----- where an implementation starts from

  /** Row `i` is the last to have sent the session implementing. */
  ghost predicate Reopens(v: View, i: int) {
    && 0 <= i < |v.transitions| && OpensWork(v.transitions[i])
    && forall j :: i < j < |v.transitions| ==> !OpensWork(v.transitions[j])
  }

  predicate OpensWork(row: Transition) {
    row.target == Implementing && row.source in {ProofReady, Verifying, PrePrReviewing}
  }

  /** Receipt `j` is the newest of a gate that ran past its setup, on one commit, undisturbed, and did not pass. */
  ghost predicate NewestFailure(v: View, j: int) {
    && 0 <= j < |v.gates| && ReallyFailed(v.gates[j])
    && forall k :: j < k < |v.gates| ==> !ReallyFailed(v.gates[k])
  }

  predicate ReallyFailed(r: GateReceipt) {
    && r.result != GatePassed && r.result != GateInvalidated && r.result != GateSetupFailed
    && r.headBefore == r.headAfter
  }

  /** The review that sent the session back to work names its commit. */
  ghost predicate ReviewedBasis(codec: Codec, v: View, basis: Text) {
    exists i, e :: Reopens(v, i) && codec.parseInput(v.transitions[i].inputJson).Some?
                   && IsReview(e) && Carries(codec.parseInput(v.transitions[i].inputJson).value, e)
                   && e.headSha == basis
  }

  /** Before review, failed proof sends the session back to the commit that failed. */
  ghost predicate FailedBasis(v: View, observed: Observation, basis: Text) {
    && !HasBeenReviewed(v)
    && (ProofFailed(v, observed) || exists i :: Reopens(v, i) && v.transitions[i].source == Verifying)
    && exists j :: NewestFailure(v, j) && v.gates[j].headAfter == basis != []
  }

  /** The commit the implementation starts from: of the review, else of the failure, else the plan's baseline. */
  ghost predicate StartsFrom(codec: Codec, v: View, observed: Observation, basis: Text) {
    || ReviewedBasis(codec, v, basis)
    || (&& (forall b :: !ReviewedBasis(codec, v, b))
        && (|| FailedBasis(v, observed, basis)
            || (&& (forall b :: !FailedBasis(v, observed, b))
                && v.plan.Some? && basis == v.plan.value.baselineHeadSha)))
  }

  // ----- where a repair starts from

  predicate OpensRepair(row: Transition) {
    row.target == Repairing && row.source in {Verifying, Reviewing, ReadyForHuman}
  }

  ghost predicate EntersRepair(v: View, i: int) {
    && 0 <= i < |v.transitions| && OpensRepair(v.transitions[i])
    && forall j :: i < j < |v.transitions| ==> !OpensRepair(v.transitions[j])
  }

  /** Snapshot `j` is the last that had been imported when the repair was entered. */
  ghost predicate LastImportedBy(v: View, j: int, version: int) {
    && 0 <= j < |v.reviews| && v.reviews[j].stateVersion <= version
    && forall k :: j < k < |v.reviews| ==> v.reviews[k].stateVersion > version
  }

  /** The commit a repair starts from: of the newest failure, or of the snapshot that asked for it. */
  ghost predicate RepairsFrom(v: View, basis: Text) {
    exists i :: EntersRepair(v, i) &&
      if v.transitions[i].source == Verifying then exists j :: NewestFailure(v, j) && v.gates[j].headAfter == basis
      else exists j :: LastImportedBy(v, j, v.transitions[i].fromVersion) && v.reviews[j].subjectHeadSha == basis
  }

  // ----- what every transition takes

  ghost predicate Warranted(
    codec: Codec, v: View, target: TaskStatus, input: Json, observed: Observation, prepared: PreparedPlan)
  {
    var head := observed.repository.headSha;
    if v.task.status == Blocked then
      BringsNoReview(input) && Tells(input, "recovery", {"approved_by", "evidence_ref", "reason"})
    else if target == Blocked then
      BringsNoReview(input) && Tells(input, "block", {"reason", "evidence_ref", "recovery", "stop_code"})
    else if v.task.status == Queued then BringsNoReview(input)
    else if v.task.status == Framed then BringsNoReview(input) && prepared.PlanReady?
    else
      && v.plan.Some? && observed.planIntact
      && match (v.task.status, target)
         case (ProofReady, Implementing) =>
           BringsNoReview(input) && OnBranch(v, observed) && head == v.plan.value.baselineHeadSha
         case (Implementing, Verifying) =>
           && BringsNoReview(input) && OnBranch(v, observed)
           && exists basis :: StartsFrom(codec, v, observed, basis) && Advanced(basis, observed)
         case (Verifying, Implementing) =>
           && !HasBeenReviewed(v) && OnBranch(v, observed)
           && if BringsNoReview(input) then ProofFailed(v, observed) else BringsReview(input, ChangesRequired, head)
         case (Verifying, PrePrReviewing) =>
           && BringsNoReview(input) && !HasBeenReviewed(v) && OnBranch(v, observed)
           && ProofStands(v, head, observed.inspection)
         case (Verifying, Reviewing) =>
           && BringsNoReview(input) && HasBeenReviewed(v) && OnBranch(v, observed)
           && ProofStands(v, head, observed.inspection)
         case (Verifying, Repairing) =>
           && BringsNoReview(input) && HasBeenReviewed(v)
           && ProofFailed(v, observed) && RepairCount(v.transitions) < 3
         case (PrePrReviewing, Implementing) =>
           !HasBeenReviewed(v) && OnBranch(v, observed) && BringsReview(input, ChangesRequired, head)
         case (PrePrReviewing, Reviewing) =>
           && !HasBeenReviewed(v) && OnBranch(v, observed) && BringsReview(input, Clean, head)
           && ProofStands(v, head, observed.inspection)
         case (Repairing, Verifying) =>
           && BringsNoReview(input) && OnBranch(v, observed)
           && exists basis :: RepairsFrom(v, basis) && Advanced(basis, observed)
         case (Reviewing, ReadyForHuman) =>
           && BringsNoReview(input) && ReviewIsCurrent(v, observed) && !ReviewBlocks(v)
           && ProofStands(v, head, observed.inspection)
         case (ReadyForHuman, Completed) =>
           && BringsNoReview(input) && ReviewIsCurrent(v, observed) && !ReviewBlocks(v)
           && ReviewConcludes(v, observed) && ProofStands(v, head, observed.inspection)
         case (_, Repairing) =>
           && BringsNoReview(input) && ReviewIsCurrent(v, observed) && ReviewBlocks(v)
           && RepairCount(v.transitions) < 3
         case _ => false
  }

  // ----- the evidence behind the context

  lemma PhaseIsExact(codec: Codec, session: string, v: View)
    requires SessionInv(codec, session, v)
    ensures PhaseOf(v) == (if HasBeenReviewed(v) then PostPr else PrePr)
  {
    hide SessionInv, PhaseOf;
    PhaseOfInv(codec, session, v);
  }

  lemma ProofFailedIsExact(codec: Codec, session: string, v: View, observed: Observation)
    requires SessionInv(codec, session, v) && v.plan.Some?
    ensures
      EvaluateProofEvidence(v.plan.value, v.gates, Some(observed.repository.headSha), observed.inspection) == Failed
      <==> ProofFailed(v, observed)
  {
    hide SessionInv, EvaluateProofEvidence, GateRefuted, GateSetupBroke, GateTampered, GateOutdated, GateUnrun;
    EvidenceIsDistinct(codec, session, v);
    ProofStatusIsExact(v.plan.value, v.gates, Some(observed.repository.headSha), observed.inspection);
  }

  lemma ProofStandsIsExact(codec: Codec, session: string, v: View, observed: Observation)
    requires SessionInv(codec, session, v) && v.plan.Some?
    ensures
      var plan, head := v.plan.value, Some(observed.repository.headSha);
      && EvaluateProofEvidence(plan, v.gates, head, observed.inspection) == Passed
      && EvaluateCiProofEvidence(plan, v.signedGates, head, observed.inspection) == CiPassed
      <==> ProofStands(v, observed.repository.headSha, observed.inspection)
  {
    hide SessionInv, EvaluateProofEvidence, EvaluateCiProofEvidence, GateProved, CiGateProved;
    EvidenceIsDistinct(codec, session, v);
    LocalProofIsExact(v.plan.value, v.gates, Some(observed.repository.headSha), observed.inspection);
    CiProofIsExact(v.plan.value, v.signedGates, Some(observed.repository.headSha), observed.inspection);
  }

  lemma ReviewContextIsExact(codec: Codec, session: string, v: View, observed: Observation, context: GuardContext)
    requires SessionInv(codec, session, v) && v.plan.Some?
    requires context.review
             == Some(EvaluateReviewEvidence(
                       v.plan.value, v.reviews, Some(observed.repository.headSha), observed.inspection))
    requires LiveHead(context) == Some(observed.repository.headSha)
    ensures CurrentReviewAtLiveHead(context) <==> ReviewIsCurrent(v, observed)
    ensures ReviewIsCurrent(v, observed) ==>
              && (HasBlockingReview(context.review.value) <==> ReviewBlocks(v))
              && (HasCurrentHumanApproval(context.review.value) && context.review.value.merged
                  <==> ReviewConcludes(v, observed))
  {
    hide SessionInv, EvaluateReviewEvidence;
    EvidenceIsDistinct(codec, session, v);
    ReviewStatusIsExact(v.plan.value, v.reviews, Some(observed.repository.headSha), observed.inspection);
  }

  // ----- the bases behind the context

  ghost predicate IsLastOf<T>(rows: seq<T>, holds: T -> bool, i: int) {
    0 <= i < |rows| && holds(rows[i]) && forall j :: i < j < |rows| ==> !holds(rows[j])
  }

  lemma LastOfExtends<T>(rows: seq<T>, holds: T -> bool, i: int)
    requires rows != [] && !holds(rows[|rows| - 1])
    ensures IsLastOf(rows, holds, i) <==> IsLastOf(rows[..|rows| - 1], holds, i)
  {
    var n := |rows| - 1;
    assert forall j :: 0 <= j < n ==> rows[..n][j] == rows[j];
  }

  lemma LastOfIsUnique<T>(rows: seq<T>, holds: T -> bool, i: int, j: int)
    requires IsLastOf(rows, holds, i) && IsLastOf(rows, holds, j)
    ensures i == j
  {
  }

  lemma {:induction false} LatestFailureIsLast(receipts: seq<GateReceipt>)
    ensures
      match LatestFailure(receipts)
      case None => forall i :: !IsLastOf(receipts, ReallyFailed, i)
      case Some(r) => exists i :: IsLastOf(receipts, ReallyFailed, i) && receipts[i] == r
  {
    if receipts != [] {
      var n := |receipts| - 1;
      LatestFailureIsLast(receipts[..n]);
      if ReallyFailed(receipts[n]) {
        assert IsLastOf(receipts, ReallyFailed, n);
      } else {
        forall i | true ensures IsLastOf(receipts, ReallyFailed, i) <==> IsLastOf(receipts[..n], ReallyFailed, i) {
          LastOfExtends(receipts, ReallyFailed, i);
        }
        if LatestFailure(receipts).Some? {
          var i :| IsLastOf(receipts[..n], ReallyFailed, i) && receipts[..n][i] == LatestFailure(receipts).value;
          assert IsLastOf(receipts, ReallyFailed, i);
        }
      }
    }
  }

  lemma {:induction false} LatestOpeningIsLast(codec: Codec, rows: seq<Transition>)
    requires forall i :: 0 <= i < |rows| ==> codec.parseInput(rows[i].inputJson).Some?
    ensures
      match LatestImplementationEntry(ToHistory(codec, rows))
      case None => forall i :: !IsLastOf(rows, OpensWork, i)
      case Some(e) => exists i :: IsLastOf(rows, OpensWork, i) && EntryOf(codec, rows[i]) == e
  {
    if rows != [] {
      var n := |rows| - 1;
      LatestOpeningIsLast(codec, rows[..n]);
      assert ToHistory(codec, rows)[..n] == ToHistory(codec, rows[..n]);
      if OpensWork(rows[n]) {
        assert IsLastOf(rows, OpensWork, n);
      } else {
        forall i | true ensures IsLastOf(rows, OpensWork, i) <==> IsLastOf(rows[..n], OpensWork, i) {
          LastOfExtends(rows, OpensWork, i);
        }
        if LatestImplementationEntry(ToHistory(codec, rows)).Some? {
          var i :| IsLastOf(rows[..n], OpensWork, i)
                   && EntryOf(codec, rows[..n][i]) == LatestImplementationEntry(ToHistory(codec, rows)).value;
          assert IsLastOf(rows, OpensWork, i);
        }
      }
    }
  }

  lemma {:induction false} RepairEntryIsLast(codec: Codec, rows: seq<Transition>)
    requires forall i :: 0 <= i < |rows| ==> codec.parseInput(rows[i].inputJson).Some?
    ensures
      match CurrentRepairEntry(ToHistory(codec, rows))
      case None => forall i :: !IsLastOf(rows, OpensRepair, i)
      case Some(e) => exists i :: IsLastOf(rows, OpensRepair, i) && EntryOf(codec, rows[i]) == e
  {
    if rows != [] {
      var n := |rows| - 1;
      RepairEntryIsLast(codec, rows[..n]);
      assert ToHistory(codec, rows)[..n] == ToHistory(codec, rows[..n]);
      if OpensRepair(rows[n]) {
        assert IsLastOf(rows, OpensRepair, n);
      } else {
        forall i | true ensures IsLastOf(rows, OpensRepair, i) <==> IsLastOf(rows[..n], OpensRepair, i) {
          LastOfExtends(rows, OpensRepair, i);
        }
        if CurrentRepairEntry(ToHistory(codec, rows)).Some? {
          var i :| IsLastOf(rows[..n], OpensRepair, i)
                   && EntryOf(codec, rows[..n][i]) == CurrentRepairEntry(ToHistory(codec, rows)).value;
          assert IsLastOf(rows, OpensRepair, i);
        }
      }
    }
  }

  /** Imported when the session had come no further than that version. */
  function UpTo(version: int): ReviewReceipt -> bool {
    (r: ReviewReceipt) => r.stateVersion <= version
  }

  lemma {:induction false} ImportedIsLast(reviews: seq<ReviewReceipt>, version: int)
    requires forall i, j :: 0 <= i < j < |reviews| ==> reviews[i].sequence < reviews[j].sequence
    ensures forall r :: r in ImportedBy(reviews, version) ==> r in reviews
    ensures
      match NewestReview(ImportedBy(reviews, version))
      case None => forall i :: !IsLastOf(reviews, UpTo(version), i)
      case Some(r) => exists i :: IsLastOf(reviews, UpTo(version), i) && reviews[i] == r
  {
    hide NewestReview;
    var early := UpTo(version);
    if reviews == [] {
      NewestIsOneOf([]);
    } else {
      var n := |reviews| - 1;
      var before := ImportedBy(reviews[..n], version);
      ImportedIsLast(reviews[..n], version);
      if early(reviews[n]) {
        assert ImportedBy(reviews, version) == before + [reviews[n]];
        NewestIsOneOf(before);
        if before != [] {
          var i :| 0 <= i < n && reviews[..n][i] == NewestReview(before).value;
        }
        NewestIsAdded(before, reviews[n]);
        assert IsLastOf(reviews, early, n);
      } else {
        assert before + [] == before;
        forall i | true ensures IsLastOf(reviews, early, i) <==> IsLastOf(reviews[..n], early, i) {
          LastOfExtends(reviews, early, i);
        }
        if NewestReview(before).Some? {
          var i :| IsLastOf(reviews[..n], early, i) && reviews[..n][i] == NewestReview(before).value;
          assert IsLastOf(reviews, early, i);
        }
      }
    }
  }

  lemma NewestIsAdded(reviews: seq<ReviewReceipt>, last: ReviewReceipt)
    requires reviews != [] ==> NewestReview(reviews).Some? && NewestReview(reviews).value.sequence < last.sequence
    ensures NewestReview(reviews + [last]) == Some(last)
  {
    assert (reviews + [last])[..|reviews|] == reviews;
  }

  lemma {:induction false} NewestIsOneOf(reviews: seq<ReviewReceipt>)
    ensures reviews != [] ==> NewestReview(reviews).Some? && NewestReview(reviews).value in reviews
    ensures reviews == [] ==> NewestReview(reviews).None?
  {
    if reviews != [] {
      var n := |reviews| - 1;
      NewestIsOneOf(reviews[..n]);
      assert reviews == reviews[..n] + [reviews[n]];
    }
  }

  lemma ReviewedBasisIsExact(codec: Codec, session: string, v: View, basis: Text)
    requires SessionInv(codec, session, v)
    ensures
      var entry := LatestImplementationEntry(HistoryOf(codec, v));
      var review := if entry.Some? then ReadPrePrReviewEvidence(entry.value.input) else None;
      ReviewedBasis(codec, v, basis) <==> review.Some? && review.value.headSha == basis
  {
    hide SessionInv, IsReview, Carries, ReadPrePrReviewEvidence, LatestImplementationEntry, HistoryOf, OpensWork;
    HistoryOfView(codec, session, v);
    LatestOpeningIsLast(codec, v.transitions);
    var entry := LatestImplementationEntry(HistoryOf(codec, v));
    assert forall i :: Reopens(v, i) <==> IsLastOf(v.transitions, OpensWork, i);
    if entry.Some? {
      var i :| IsLastOf(v.transitions, OpensWork, i) && EntryOf(codec, v.transitions[i]) == entry.value;
      forall j | Reopens(v, j) ensures j == i { LastOfIsUnique(v.transitions, OpensWork, i, j); }
      var input := codec.parseInput(v.transitions[i].inputJson).value;
      forall e | true ensures ReadPrePrReviewEvidence(input) == Some(e) <==> IsReview(e) && Carries(input, e) {
        ReviewReadingIsExact(input, e);
      }
      assert Reopens(v, i);
    }
  }

  lemma ReopenedFromIsExact(codec: Codec, session: string, v: View)
    requires SessionInv(codec, session, v)
    ensures
      var entry := LatestImplementationEntry(HistoryOf(codec, v));
      entry.Some? && entry.value.source == Verifying
      <==> exists i :: Reopens(v, i) && v.transitions[i].source == Verifying
  {
    hide SessionInv, LatestImplementationEntry, HistoryOf, OpensWork;
    HistoryOfView(codec, session, v);
    LatestOpeningIsLast(codec, v.transitions);
    assert forall i :: Reopens(v, i) <==> IsLastOf(v.transitions, OpensWork, i);
    var entry := LatestImplementationEntry(HistoryOf(codec, v));
    if entry.Some? {
      var i :| IsLastOf(v.transitions, OpensWork, i) && EntryOf(codec, v.transitions[i]) == entry.value;
      forall j | Reopens(v, j) ensures j == i { LastOfIsUnique(v.transitions, OpensWork, i, j); }
      assert Reopens(v, i);
    }
  }

  lemma FailureIsExact(v: View, basis: Text)
    ensures
      (exists j :: NewestFailure(v, j) && v.gates[j].headAfter == basis)
      <==> LatestFailure(v.gates).Some? && LatestFailure(v.gates).value.headAfter == basis
  {
    hide LatestFailure, ReallyFailed;
    LatestFailureIsLast(v.gates);
    assert forall j :: NewestFailure(v, j) <==> IsLastOf(v.gates, ReallyFailed, j);
    if LatestFailure(v.gates).Some? {
      var i :| IsLastOf(v.gates, ReallyFailed, i) && v.gates[i] == LatestFailure(v.gates).value;
      forall j | NewestFailure(v, j) ensures j == i { LastOfIsUnique(v.gates, ReallyFailed, i, j); }
      assert NewestFailure(v, i);
    }
  }

  lemma FailedBasisIsExact(codec: Codec, session: string, v: View, observed: Observation, basis: Text)
    requires SessionInv(codec, session, v) && v.plan.Some?
    ensures
      var failure, entry := LatestFailure(v.gates), LatestImplementationEntry(HistoryOf(codec, v));
      var failed :=
        EvaluateProofEvidence(v.plan.value, v.gates, Some(observed.repository.headSha), observed.inspection) == Failed;
      FailedBasis(v, observed, basis)
      <==> && PhaseOf(v) == PrePr && (failed || (entry.Some? && entry.value.source == Verifying))
           && failure.Some? && failure.value.headAfter != [] && failure.value.headAfter == basis
  {
    hide SessionInv, EvaluateProofEvidence, LatestFailure, LatestImplementationEntry, HistoryOf, PhaseOf, ProofFailed,
      HasBeenReviewed, Reopens, NewestFailure;
    PhaseIsExact(codec, session, v);
    ProofFailedIsExact(codec, session, v, observed);
    ReopenedFromIsExact(codec, session, v);
    FailureIsExact(v, basis);
  }

  /** The implementation starts from exactly one commit: the one the context names. */
  lemma StartIsExact(codec: Codec, session: string, v: View, observed: Observation, basis: Text)
    requires SessionInv(codec, session, v) && v.plan.Some? && observed.planIntact
    ensures
      var proof := EvaluateSessionProof(v, Some(observed.repository.headSha), observed);
      var named := ImplementationBasisOf(proof, PhaseOf(v), HistoryOf(codec, v));
      named.Some? && (StartsFrom(codec, v, observed, basis) <==> named.value.headSha == basis)
  {
    hide SessionInv, EvaluateProofEvidence, EvaluateCiProofEvidence, EvaluateReviewEvidence, LatestFailure,
      LatestImplementationEntry, HistoryOf, PhaseOf, ReviewedBasis, FailedBasis, ReadPrePrReviewEvidence,
      EvaluateSessionProof;
    forall b | true
      ensures
        var entry := LatestImplementationEntry(HistoryOf(codec, v));
        var review := if entry.Some? then ReadPrePrReviewEvidence(entry.value.input) else None;
        ReviewedBasis(codec, v, b) <==> review.Some? && review.value.headSha == b
    {
      ReviewedBasisIsExact(codec, session, v, b);
    }
    forall b | true
      ensures
        var failure, entry := LatestFailure(v.gates), LatestImplementationEntry(HistoryOf(codec, v));
        var failed :=
          EvaluateProofEvidence(v.plan.value, v.gates, Some(observed.repository.headSha), observed.inspection)
          == Failed;
        FailedBasis(v, observed, b)
        <==> && PhaseOf(v) == PrePr && (failed || (entry.Some? && entry.value.source == Verifying))
             && failure.Some? && failure.value.headAfter != [] && failure.value.headAfter == b
    {
      FailedBasisIsExact(codec, session, v, observed, b);
    }
    var entry, failure := LatestImplementationEntry(HistoryOf(codec, v)), LatestFailure(v.gates);
    var review := if entry.Some? then ReadPrePrReviewEvidence(entry.value.input) else None;
    assert review.Some? ==> ReviewedBasis(codec, v, review.value.headSha);
    assert failure.Some? ==>
             (FailedBasis(v, observed, failure.value.headAfter) <==> exists b :: FailedBasis(v, observed, b));
    ProofOfInstant(v, observed);
  }

  lemma ProofOfInstant(v: View, observed: Observation)
    requires v.plan.Some? && observed.planIntact
    ensures
      var proof := EvaluateSessionProof(v, Some(observed.repository.headSha), observed);
      && proof.plan == v.plan && proof.receipts == v.gates
      && proof.evidence
         == EvaluateProofEvidence(v.plan.value, v.gates, Some(observed.repository.headSha), observed.inspection)
  {
    hide EvaluateProofEvidence, EvaluateCiProofEvidence, EvaluateReviewEvidence;
  }

  lemma ImportedIsExact(codec: Codec, session: string, v: View, version: int, basis: Text)
    requires SessionInv(codec, session, v)
    ensures
      var snapshot := NewestReview(ImportedBy(v.reviews, version));
      (exists j :: LastImportedBy(v, j, version) && v.reviews[j].subjectHeadSha == basis)
      <==> snapshot.Some? && snapshot.value.subjectHeadSha == basis
  {
    hide SessionInv, NewestReview, ImportedBy;
    EvidenceIsDistinct(codec, session, v);
    assert forall i, j :: 0 <= i < j < |v.reviews| ==>
             ReviewSequence(v.reviews[i]) < ReviewSequence(v.reviews[j]);
    ImportedIsLast(v.reviews, version);
    var early := UpTo(version);
    assert forall j :: LastImportedBy(v, j, version) <==> IsLastOf(v.reviews, early, j);
    var snapshot := NewestReview(ImportedBy(v.reviews, version));
    if snapshot.Some? {
      var i :| IsLastOf(v.reviews, early, i) && v.reviews[i] == snapshot.value;
      forall j | LastImportedBy(v, j, version) ensures j == i { LastOfIsUnique(v.reviews, early, i, j); }
      assert LastImportedBy(v, i, version);
    }
  }

  /** A repair starts from exactly the commit the context names, if it names one. */
  lemma RepairStartIsExact(codec: Codec, session: string, v: View, basis: Text)
    requires SessionInv(codec, session, v)
    ensures RepairsFrom(v, basis) <==> RepairBasis(HistoryOf(codec, v), v.gates, v.reviews) == Some(basis)
  {
    hide SessionInv, LatestFailure, NewestFailure, LastImportedBy, CurrentRepairEntry, HistoryOf, NewestReview,
      ImportedBy, OpensRepair;
    HistoryOfView(codec, session, v);
    RepairEntryIsLast(codec, v.transitions);
    FailureIsExact(v, basis);
    assert forall i :: EntersRepair(v, i) <==> IsLastOf(v.transitions, OpensRepair, i);
    var entry := CurrentRepairEntry(HistoryOf(codec, v));
    if entry.Some? {
      var i :| IsLastOf(v.transitions, OpensRepair, i) && EntryOf(codec, v.transitions[i]) == entry.value;
      forall j | EntersRepair(v, j) ensures j == i { LastOfIsUnique(v.transitions, OpensRepair, i, j); }
      ImportedIsExact(codec, session, v, v.transitions[i].fromVersion, basis);
      assert EntersRepair(v, i);
    }
  }

  // ----- the guards, transition by transition

  predicate BearsReview(source: TaskStatus, target: TaskStatus) {
    (source, target) in {(Verifying, Implementing), (PrePrReviewing, Implementing), (PrePrReviewing, Reviewing)}
  }

  /** What the request may and must bring, between states that are not blocked. */
  lemma InputIsExact(source: TaskStatus, target: TaskStatus, input: Json, context: GuardContext, head: Text)
    requires source != Blocked && target != Blocked && LiveHead(context) == Some(head)
    ensures
      ValidateTransitionEvidence(source, target, input, context).GuardsAllowed?
      <==>
      if !BearsReview(source, target) then BringsNoReview(input)
      else if BringsNoReview(input) then source == Verifying && context.evidence == Some(Failed)
      else BringsReview(input, if target == Implementing then ChangesRequired else Clean, head)
  {
    hide ReadPrePrReviewEvidence, Field, BringsReview, BringsNoReview, HasBlockEvidence, HasRecoveryEvidence;
    ReviewIsExact(input, ChangesRequired, head);
    ReviewIsExact(input, Clean, head);
  }

  /** The instant context of a session with a plan, in terms of the rows. */
  lemma ContextIsExact(codec: Codec, session: string, v: View, observed: Observation)
    requires SessionInv(codec, session, v) && v.plan.Some? && observed.planIntact
    ensures
      var context := FullContext(codec, v, v, observed);
      && context.boundPlan.None? && context.plan == v.plan && context.repository.Some?
      && LiveHead(context) == Some(observed.repository.headSha)
      && (OnPlanBranch(v.plan.value, context.repository.value) <==> OnBranch(v, observed))
      && (context.phase == Some(PostPr) <==> HasBeenReviewed(v))
      && (context.phase == Some(PrePr) <==> !HasBeenReviewed(v))
      && (context.evidence == Some(Failed) <==> ProofFailed(v, observed))
      && (context.evidence == Some(Passed) && context.ci == Some(CiPassed)
          <==> ProofStands(v, observed.repository.headSha, observed.inspection))
      && context.attemptsUsed == Some(RepairCount(v.transitions))
      && context.review
         == Some(EvaluateReviewEvidence(
                   v.plan.value, v.reviews, Some(observed.repository.headSha), observed.inspection))
  {
    hide SessionInv, EvaluateProofEvidence, EvaluateCiProofEvidence, EvaluateReviewEvidence, FullContext, PhaseOf,
      HasBeenReviewed, ProofFailed, ProofStands, ImplementationBasisOf, EvaluateSessionProof, CommittedSince;
    ContextNow(codec, v, observed);
    PhaseIsExact(codec, session, v);
    ProofFailedIsExact(codec, session, v, observed);
    ProofStandsIsExact(codec, session, v, observed);
  }

  lemma AdvancedIsExact(basis: Text, observed: Observation)
    ensures CommittedSince(Some(basis), observed) <==> Advanced(basis, observed)
  {
    assert forall i :: 0 <= i < |basis| ==> basis[i] in basis;
    if Advanced(basis, observed) {
      forall u | u in basis ensures 0x30 <= u <= 0x39 || 0x61 <= u <= 0x66 {
        var i :| 0 <= i < |basis| && basis[i] == u;
      }
    }
  }

  lemma ImplementingIsExact(codec: Codec, session: string, v: View, input: Json, observed: Observation)
    requires SessionInv(codec, session, v) && v.plan.Some? && observed.planIntact
    ensures
      EvaluateTransitionGuards(ProofReady, Implementing, input, None, FullContext(codec, v, v, observed)).GuardsAllowed?
      <==>
      BringsNoReview(input) && OnBranch(v, observed) && observed.repository.headSha == v.plan.value.baselineHeadSha
  {
    hide SessionInv, FullContext, OnBranch, HasBeenReviewed, ProofFailed, ProofStands, EvaluateReviewEvidence,
      BringsReview, BringsNoReview, ValidateTransitionEvidence, OnPlanBranch, RepairCount, EvaluateReviewOwnedGuards;
    ContextIsExact(codec, session, v, observed);
    InputIsExact(
      ProofReady, Implementing, input, FullContext(codec, v, v, observed), observed.repository.headSha);
  }

  /** The guards into `verifying`, in terms of the context. */
  lemma ImplementedGuards(input: Json, context: GuardContext, head: Text)
    requires context.plan.Some? && context.repository.Some? && LiveHead(context) == Some(head)
    ensures
      EvaluateTransitionGuards(Implementing, Verifying, input, None, context).GuardsAllowed?
      <==>
      && BringsNoReview(input) && OnPlanBranch(context.plan.value, context.repository.value)
      && context.basis.Some? && context.basis.value.headSha != head
      && context.repository.value.committedImplementationFromBasis
  {
    hide BringsReview, BringsNoReview, ValidateTransitionEvidence, OnPlanBranch, EvaluateReviewOwnedGuards;
    InputIsExact(Implementing, Verifying, input, context, head);
  }

  lemma VerifyingIsExact(codec: Codec, session: string, v: View, input: Json, observed: Observation)
    requires SessionInv(codec, session, v) && v.plan.Some? && observed.planIntact
    ensures
      EvaluateTransitionGuards(Implementing, Verifying, input, None, FullContext(codec, v, v, observed)).GuardsAllowed?
      <==>
      && BringsNoReview(input) && OnBranch(v, observed)
      && exists basis :: StartsFrom(codec, v, observed, basis) && Advanced(basis, observed)
  {
    hide SessionInv, FullContext, OnBranch, HasBeenReviewed, ProofFailed, ProofStands, EvaluateReviewEvidence,
      BringsReview, BringsNoReview, EvaluateTransitionGuards, OnPlanBranch, RepairCount, StartsFrom, Advanced,
      ImplementationBasisOf, EvaluateSessionProof, HistoryOf, PhaseOf, CommittedSince, EvaluateProofEvidence,
      EvaluateCiProofEvidence;
    var context := FullContext(codec, v, v, observed);
    ContextIsExact(codec, session, v, observed);
    ContextNow(codec, v, observed);
    ImplementedGuards(input, context, observed.repository.headSha);
    forall basis | true
      ensures
        var proof := EvaluateSessionProof(v, Some(observed.repository.headSha), observed);
        var named := ImplementationBasisOf(proof, PhaseOf(v), HistoryOf(codec, v));
        named.Some? && (StartsFrom(codec, v, observed, basis) <==> named.value.headSha == basis)
    {
      StartIsExact(codec, session, v, observed, basis);
    }
    StartIsExact(codec, session, v, observed, []);
    AdvancedIsExact(context.basis.value.headSha, observed);
    if StartsFrom(codec, v, observed, context.basis.value.headSha) && Advanced(context.basis.value.headSha, observed) {
      AdvancedMoves(context.basis.value.headSha, observed);
    }
  }

  lemma AdvancedMoves(basis: Text, observed: Observation)
    requires Advanced(basis, observed)
    ensures basis != observed.repository.headSha
  {
  }

  /** Out of `verifying`, to the four places it may lead. */
  lemma VerifiedIsExact(
    codec: Codec, session: string, v: View, target: TaskStatus, input: Json, observed: Observation)
    requires SessionInv(codec, session, v) && v.plan.Some? && observed.planIntact
    requires target in {Implementing, PrePrReviewing, Reviewing, Repairing}
    ensures
      EvaluateTransitionGuards(Verifying, target, input, None, FullContext(codec, v, v, observed)).GuardsAllowed?
      <==>
      match target
      case Implementing =>
        && !HasBeenReviewed(v) && OnBranch(v, observed)
        && if BringsNoReview(input) then ProofFailed(v, observed)
           else BringsReview(input, ChangesRequired, observed.repository.headSha)
      case Repairing =>
        BringsNoReview(input) && HasBeenReviewed(v) && ProofFailed(v, observed) && RepairCount(v.transitions) < 3
      case _ =>
        && BringsNoReview(input) && (HasBeenReviewed(v) <==> target == Reviewing) && OnBranch(v, observed)
        && ProofStands(v, observed.repository.headSha, observed.inspection)
  {
    hide SessionInv, FullContext, OnBranch, HasBeenReviewed, ProofFailed, ProofStands, EvaluateReviewEvidence,
      BringsReview, BringsNoReview, EvaluateTransitionGuards, OnPlanBranch, RepairCount;
    var context := FullContext(codec, v, v, observed);
    ContextIsExact(codec, session, v, observed);
    VerifyingGuards(target, input, context, observed.repository.headSha);
  }

  /** The guards out of `verifying`, in terms of the context. */
  lemma VerifyingGuards(target: TaskStatus, input: Json, context: GuardContext, head: Text)
    requires target in {Implementing, PrePrReviewing, Reviewing, Repairing}
    requires context.plan.Some? && context.repository.Some? && LiveHead(context) == Some(head)
    ensures
      var onBranch := OnPlanBranch(context.plan.value, context.repository.value);
      EvaluateTransitionGuards(Verifying, target, input, None, context).GuardsAllowed?
      <==>
      match target
      case Implementing =>
        && context.phase == Some(PrePr) && onBranch
        && if BringsNoReview(input) then context.evidence == Some(Failed)
           else BringsReview(input, ChangesRequired, head)
      case Repairing =>
        && BringsNoReview(input) && context.phase == Some(PostPr) && context.evidence == Some(Failed)
        && context.attemptsUsed.Some? && context.attemptsUsed.value < 3
      case _ =>
        && BringsNoReview(input) && context.phase == Some(if target == Reviewing then PostPr else PrePr) && onBranch
        && context.evidence == Some(Passed) && context.ci == Some(CiPassed)
  {
    hide BringsReview, BringsNoReview, ValidateTransitionEvidence, OnPlanBranch, ReadPrePrReviewEvidence, LiveHead;
    InputIsExact(Verifying, target, input, context, head);
    ReviewIsExact(input, ChangesRequired, head);
  }

  lemma ReviewedIsExact(
    codec: Codec, session: string, v: View, target: TaskStatus, input: Json, observed: Observation)
    requires SessionInv(codec, session, v) && v.plan.Some? && observed.planIntact
    requires target in {Implementing, Reviewing}
    ensures
      EvaluateTransitionGuards(PrePrReviewing, target, input, None, FullContext(codec, v, v, observed)).GuardsAllowed?
      <==>
      && !HasBeenReviewed(v) && OnBranch(v, observed)
      && BringsReview(input, if target == Implementing then ChangesRequired else Clean, observed.repository.headSha)
      && (target == Reviewing ==> ProofStands(v, observed.repository.headSha, observed.inspection))
  {
    hide SessionInv, FullContext, OnBranch, HasBeenReviewed, ProofFailed, ProofStands, EvaluateReviewEvidence,
      BringsReview, BringsNoReview, ValidateTransitionEvidence, OnPlanBranch, RepairCount, EvaluateReviewOwnedGuards,
      ReadPrePrReviewEvidence, Field;
    var context, head := FullContext(codec, v, v, observed), observed.repository.headSha;
    ContextIsExact(codec, session, v, observed);
    InputIsExact(PrePrReviewing, target, input, context, head);
    ReviewIsExact(input, ChangesRequired, head);
    ReviewIsExact(input, Clean, head);
  }

  lemma RepairedIsExact(codec: Codec, session: string, v: View, input: Json, observed: Observation)
    requires SessionInv(codec, session, v) && v.plan.Some? && observed.planIntact
    ensures
      EvaluateTransitionGuards(Repairing, Verifying, input, None, FullContext(codec, v, v, observed)).GuardsAllowed?
      <==>
      && BringsNoReview(input) && OnBranch(v, observed)
      && exists basis :: RepairsFrom(v, basis) && Advanced(basis, observed)
  {
    hide SessionInv, FullContext, OnBranch, BringsReview, EvaluateTransitionGuards, OnPlanBranch, RepairCount,
      RepairsFrom, Advanced, RepairBasis, EvaluateSessionProof, HistoryOf, PhaseOf, BuildProofGuardContext,
      IsFullCommitSha, ReadPrePrReviewEvidence;
    var context := FullContext(codec, v, v, observed);
    RepairGuard(input, context);
    InstantRepairFacts(codec, v, observed);
    ReviewIsExact(input, Clean, observed.repository.headSha);
    forall basis | true
      ensures RepairsFrom(v, basis) <==> RepairBasis(HistoryOf(codec, v), v.gates, v.reviews) == Some(basis)
      ensures CommittedSince(Some(basis), observed) <==> Advanced(basis, observed)
    {
      RepairStartIsExact(codec, session, v, basis);
      AdvancedIsExact(basis, observed);
    }
  }

  lemma InstantRepairFacts(codec: Codec, v: View, observed: Observation)
    requires v.plan.Some? && observed.planIntact
    ensures
      var context := FullContext(codec, v, v, observed);
      && context.plan == v.plan && context.repository.Some?
      && (OnPlanBranch(v.plan.value, context.repository.value) <==> OnBranch(v, observed))
      && context.repository.value.committedRepairFromFailure
         == CommittedSince(RepairBasis(HistoryOf(codec, v), v.gates, v.reviews), observed)
  {
    hide BuildProofGuardContext, EvaluateSessionProof, RepairBasis, CommittedSince, HistoryOf, PhaseOf;
    var proof := EvaluateSessionProof(v, Some(observed.repository.headSha), observed);
    RepairFacts(proof, observed, PhaseOf(v), HistoryOf(codec, v));
    ProofFacts(v, Some(observed.repository.headSha), observed);
  }

  /** Out of `reviewing` and `ready_for_human`. */
  lemma ReviewOwnedIsExact(
    codec: Codec, session: string, v: View, source: TaskStatus, target: TaskStatus, input: Json, observed: Observation)
    requires SessionInv(codec, session, v) && v.plan.Some? && observed.planIntact
    requires (source, target) in {(Reviewing, Repairing), (Reviewing, ReadyForHuman), (ReadyForHuman, Repairing),
                                  (ReadyForHuman, Completed)}
    ensures
      EvaluateTransitionGuards(source, target, input, None, FullContext(codec, v, v, observed)).GuardsAllowed?
      <==>
      && BringsNoReview(input) && ReviewIsCurrent(v, observed)
      && if target == Repairing then ReviewBlocks(v) && RepairCount(v.transitions) < 3
         else
           && !ReviewBlocks(v) && ProofStands(v, observed.repository.headSha, observed.inspection)
           && (target == Completed ==> ReviewConcludes(v, observed))
  {
    hide SessionInv, FullContext, OnBranch, HasBeenReviewed, ProofFailed, ProofStands, EvaluateReviewEvidence,
      BringsReview, BringsNoReview, ValidateTransitionEvidence, OnPlanBranch, RepairCount, EvaluateProofOwnedGuards,
      ReviewIsCurrent, ReviewBlocks, ReviewConcludes, CurrentReviewAtLiveHead, HasBlockingReview,
      HasCurrentHumanApproval;
    var context, head := FullContext(codec, v, v, observed), observed.repository.headSha;
    ContextIsExact(codec, session, v, observed);
    ReviewContextIsExact(codec, session, v, observed, context);
    InputIsExact(source, target, input, context, head);
    CurrentHasReview(context);
  }

  lemma CurrentHasReview(context: GuardContext)
    ensures CurrentReviewAtLiveHead(context) ==> context.review.Some? && context.review.value.status == ReviewCurrent
    ensures !CurrentReviewAtLiveHead(context) ==> ReviewUnusable(context).GuardsDenied?
  {
  }

  lemma UnblockingIsExact(
    source: TaskStatus, target: TaskStatus, input: Json, blockedFrom: Option<TaskStatus>, context: GuardContext)
    requires source == Blocked && target != Blocked && blockedFrom.Some?
    ensures EvaluateTransitionGuards(source, target, input, blockedFrom, context).GuardsAllowed?
            <==> BringsNoReview(input) && Tells(input, "recovery", {"approved_by", "evidence_ref", "reason"})
  {
    hide ReadPrePrReviewEvidence, Field, BringsReview, BringsNoReview, HasBlockEvidence, HasRecoveryEvidence, Tells;
    ReviewIsExact(input, Clean, []);
    RecoveryIsExact(input);
  }

  lemma BlockingIsExact(source: TaskStatus, input: Json, blockedFrom: Option<TaskStatus>, context: GuardContext)
    requires source != Blocked
    ensures EvaluateTransitionGuards(source, Blocked, input, blockedFrom, context).GuardsAllowed?
            <==> && BringsNoReview(input)
                 && Tells(input, "block", {"reason", "evidence_ref", "recovery", "stop_code"})
  {
    hide ReadPrePrReviewEvidence, Field, BringsReview, BringsNoReview, HasBlockEvidence, HasRecoveryEvidence, Tells;
    ReviewIsExact(input, Clean, []);
    BlockIsExact(input);
  }

  // ----- what the service prepares is admitted exactly when it is warranted

  /** What the call of one instant hands to the store. */
  lemma InstantCases(codec: Codec, v: View, call: TransitionCall, p: Preparation)
    requires call == Instant(codec, v, call, p) && call.request.expectedVersion == v.task.stateVersion
    ensures call.watermark.Some? ==> call.watermark.value == ReadWatermark(v)
    ensures call.boundPlan.Some? ==> v.task.status == Framed && call.request.target == ProofReady
    ensures
      call.guards
      == if v.task.status == Framed && call.request.target == ProofReady then
           (match p.prepared
            case PlanReady(plan) => UnderContext(EMPTY_CONTEXT.(boundPlan := Some(plan)))
            case PlanRejected(failure) => PreparedRejection(failure))
         else if NeedsReview(call.request, v) then
           UnderContext(if EvaluateSessionProof(v, None, p.observed).plan.None? then PlanlessContext(v, v, p.observed)
                        else FullContext(codec, v, v, p.observed))
         else if NeedsProof(call.request, v) then UnderContext(FullContext(codec, v, v, p.observed))
         else UnderContext(EMPTY_CONTEXT)
  {
    hide EvaluateSessionProof, FullContext, PlanlessContext, ReadWatermark, NeedsReview, NeedsProof;
  }

  /** The verdict is the guards' once version, graph and watermark agree. */
  lemma JudgedByGuards(codec: Codec, v: View, call: TransitionCall, p: Preparation)
    requires call == Instant(codec, v, call, p) && call.request.expectedVersion == v.task.stateVersion
    requires EvaluateLifecycleTransition(
               v.task.status, call.request.target, v.task.blockedFrom, Some(PhaseOf(v))).TransitionAllowed?
    ensures JudgeFresh(v, call).Admit?
            <==> RunGuards(call.guards, v.task.status, call.request.target, call.request.input,
                           v.task.blockedFrom).GuardsAllowed?
  {
    hide Instant, EvaluateLifecycleTransition, PhaseOf, ReadWatermark, RunGuards, FullContext, PlanlessContext,
      NeedsReview, NeedsProof, EvaluateSessionProof;
    InstantCases(codec, v, call, p);
  }

  lemma OpeningIsExact(source: TaskStatus, target: TaskStatus, input: Json, context: GuardContext)
    requires (source, target) in {(Queued, Framed), (Framed, ProofReady)}
    requires source == Framed ==> context.boundPlan.Some?
    ensures EvaluateTransitionGuards(source, target, input, None, context).GuardsAllowed? <==> BringsNoReview(input)
  {
    hide ReadPrePrReviewEvidence, Field, BringsNoReview, HasBlockEvidence, HasRecoveryEvidence;
    ReviewIsExact(input, Clean, []);
  }

  /** Without a plan that is bound and intact, nothing that needs the proof or the review is allowed. */
  lemma PlanlessIsDenied(
    codec: Codec, v: View, source: TaskStatus, target: TaskStatus, input: Json, observed: Observation)
    requires v.plan.None? || !observed.planIntact
    requires source != Blocked && target != Blocked
    requires (source, target) !in {(Queued, Framed), (Framed, ProofReady)}
    ensures EvaluateTransitionGuards(source, target, input, None, FullContext(codec, v, v, observed)).GuardsDenied?
    ensures TransitionGuardRequirement(source, target) == ReviewGuard ==>
              EvaluateTransitionGuards(source, target, input, None, PlanlessContext(v, v, observed)).GuardsDenied?
  {
    hide FullContext, PlanlessContext, EvaluateTransitionGuards;
    PlanlessContexts(codec, v, observed);
    NoPlanIsDenied(source, target, input, FullContext(codec, v, v, observed));
    NoPlanIsDenied(source, target, input, PlanlessContext(v, v, observed));
  }

  /** Neither context has a plan, and the review in it is not current. */
  lemma PlanlessContexts(codec: Codec, v: View, observed: Observation)
    requires v.plan.None? || !observed.planIntact
    ensures
      var full, planless := FullContext(codec, v, v, observed), PlanlessContext(v, v, observed);
      && full.boundPlan.None? && full.plan.None? && !CurrentReviewAtLiveHead(full)
      && planless.boundPlan.None? && planless.plan.None? && !CurrentReviewAtLiveHead(planless)
  {
    hide EvaluateProofEvidence, EvaluateCiProofEvidence, EvaluateReviewEvidence, ImplementationBasisOf, RepairBasis,
      PhaseOf, HistoryOf, CommittedSince;
  }

  lemma NoPlanIsDenied(source: TaskStatus, target: TaskStatus, input: Json, context: GuardContext)
    requires context.boundPlan.None? && context.plan.None? && !CurrentReviewAtLiveHead(context)
    requires source != Blocked && target != Blocked && (source, target) !in {(Queued, Framed), (Framed, ProofReady)}
    ensures EvaluateTransitionGuards(source, target, input, None, context).GuardsDenied?
  {
    hide ValidateTransitionEvidence, CurrentReviewAtLiveHead, HasBlockingReview, HasCurrentHumanApproval;
  }

  lemma PlanOfProof(v: View, head: Option<Text>, observed: Observation)
    ensures EvaluateSessionProof(v, head, observed).plan.None? <==> v.plan.None? || !observed.planIntact
  {
    hide EvaluateProofEvidence, EvaluateCiProofEvidence, EvaluateReviewEvidence;
  }

  lemma GraphOf(source: TaskStatus, target: TaskStatus, blockedFrom: Option<TaskStatus>, phase: Phase)
    requires EvaluateLifecycleTransition(source, target, blockedFrom, Some(phase)).TransitionAllowed?
    ensures source == Blocked ==> target != Blocked && blockedFrom.Some?
    ensures source != Blocked && target != Blocked ==>
              (source, target) in {
                (Queued, Framed), (Framed, ProofReady), (ProofReady, Implementing), (Implementing, Verifying),
                (Verifying, Implementing), (Verifying, PrePrReviewing), (Verifying, Reviewing), (Verifying, Repairing),
                (PrePrReviewing, Implementing), (PrePrReviewing, Reviewing), (Reviewing, Repairing),
                (Reviewing, ReadyForHuman), (Repairing, Verifying), (ReadyForHuman, Repairing),
                (ReadyForHuman, Completed)}
  {
  }

  /** Between two states of the forward graph past `proof_ready`, with a plan bound and intact. */
  lemma ForwardIsExact(codec: Codec, session: string, v: View, target: TaskStatus, input: Json, observed: Observation,
                       prepared: PreparedPlan)
    requires SessionInv(codec, session, v) && v.plan.Some? && observed.planIntact
    requires v.task.status !in {Queued, Framed, Blocked} && target != Blocked
    requires EvaluateLifecycleTransition(
               v.task.status, target, v.task.blockedFrom, Some(PhaseOf(v))).TransitionAllowed?
    ensures
      EvaluateTransitionGuards(
        v.task.status, target, input, None, FullContext(codec, v, v, observed)).GuardsAllowed?
      <==> Warranted(codec, v, target, input, observed, prepared)
  {
    hide SessionInv, FullContext, EvaluateTransitionGuards, EvaluateLifecycleTransition, PhaseOf, OnBranch,
      HasBeenReviewed, ProofFailed, ProofStands, BringsReview, BringsNoReview, StartsFrom, Advanced, RepairsFrom,
      ReviewIsCurrent, ReviewBlocks, ReviewConcludes, RepairCount;
    GraphOf(v.task.status, target, v.task.blockedFrom, PhaseOf(v));
    match v.task.status
    case ProofReady => ImplementingIsExact(codec, session, v, input, observed);
    case Implementing => VerifyingIsExact(codec, session, v, input, observed);
    case Verifying => VerifiedIsExact(codec, session, v, target, input, observed);
    case PrePrReviewing => ReviewedIsExact(codec, session, v, target, input, observed);
    case Repairing => RepairedIsExact(codec, session, v, input, observed);
    case _ => ReviewOwnedIsExact(codec, session, v, v.task.status, target, input, observed);
  }

  /**
   * For every session, every request the graph leaves open and every checkout: the call prepared from the rows as they
   * stand is admitted if and only if the transition is warranted.
   */
  lemma InstantIsWarranted(codec: Codec, session: string, v: View, call: TransitionCall, p: Preparation)
    requires SessionInv(codec, session, v)
    requires call == Instant(codec, v, call, p) && call.request.expectedVersion == v.task.stateVersion
    requires EvaluateLifecycleTransition(
               v.task.status, call.request.target, v.task.blockedFrom, Some(PhaseOf(v))).TransitionAllowed?
    ensures JudgeFresh(v, call).Admit?
            <==> Warranted(codec, v, call.request.target, call.request.input, p.observed, p.prepared)
  {
    hide SessionInv, Instant, FullContext, PlanlessContext, EvaluateTransitionGuards, EvaluateLifecycleTransition,
      PhaseOf, EvaluateSessionProof, JudgeFresh, Warranted, BringsNoReview, Tells, EMPTY_CONTEXT;
    var source, target, input := v.task.status, call.request.target, call.request.input;
    JudgedByGuards(codec, v, call, p);
    InstantCases(codec, v, call, p);
    GraphOf(source, target, v.task.blockedFrom, PhaseOf(v));
    UnblockedHasNoPrior(codec, session, v);
    OpeningWarrants(codec, v, target, input, p.observed, p.prepared);
    if source == Blocked {
      UnblockingIsExact(source, target, input, v.task.blockedFrom, EMPTY_CONTEXT);
    } else if target == Blocked {
      BlockingIsExact(source, input, v.task.blockedFrom, EMPTY_CONTEXT);
    } else if (source, target) in {(Queued, Framed), (Framed, ProofReady)} {
      OpeningGuards(source, target, input, call.guards);
    } else if v.plan.None? || !p.observed.planIntact {
      PlanlessIsDenied(codec, v, source, target, input, p.observed);
      PlanOfProof(v, None, p.observed);
    } else {
      PlanOfProof(v, None, p.observed);
      ForwardIsExact(codec, session, v, target, input, p.observed, p.prepared);
    }
  }

  lemma OpeningWarrants(
    codec: Codec, v: View, target: TaskStatus, input: Json, observed: Observation, prepared: PreparedPlan)
    ensures
      var warranted := Warranted(codec, v, target, input, observed, prepared);
      if v.task.status == Blocked then
        warranted <==> BringsNoReview(input) && Tells(input, "recovery", {"approved_by", "evidence_ref", "reason"})
      else if target == Blocked then
        warranted <==> && BringsNoReview(input)
                       && Tells(input, "block", {"reason", "evidence_ref", "recovery", "stop_code"})
      else if v.task.status == Queued then warranted <==> BringsNoReview(input)
      else if v.task.status == Framed then warranted <==> BringsNoReview(input) && prepared.PlanReady?
      else warranted ==> v.plan.Some? && observed.planIntact
  {
    hide BringsNoReview, Tells;
  }

  lemma OpeningGuards(source: TaskStatus, target: TaskStatus, input: Json, guards: GuardEvaluator)
    requires (source, target) in {(Queued, Framed), (Framed, ProofReady)}
    requires source == Framed && guards.UnderContext? ==> guards.context.boundPlan.Some?
    ensures RunGuards(guards, source, target, input, None).GuardsAllowed?
            <==> guards.UnderContext? && BringsNoReview(input)
  {
    hide EvaluateTransitionGuards, BringsNoReview;
    if guards.UnderContext? { OpeningIsExact(source, target, input, guards.context); }
  }

  // ----- every run

  /**
   * In every serviced run whose callers expect what was read, every transition that was applied was warranted by the
   * rows inside its own transaction, the request it carried, and the checkout that was observed.
   */
  lemma EveryTransitionIsWarranted(codec: Codec, steps: seq<Step>, preparations: seq<Preparation>, k: nat)
    requires Lawful(codec) && Serviced(codec, steps, preparations) && Prompted(steps, preparations)
    requires k < |steps| && steps[k].Deliver?
    requires Admits(codec, After(codec, steps[..k]), steps[k].call, steps[k].supply)
    ensures
      var call, p := steps[k].call, preparations[k];
      Warranted(
        codec, ViewOf(After(codec, steps[..k]), call.request.sessionId), call.request.target, call.request.input,
        p.observed, p.prepared)
  {
    hide After, ViewOf, PreparedBy, SessionInv, PhaseOf, EvaluateTransitionGuards, EvaluateLifecycleTransition,
      ReadWatermark, Instant, Judge, JudgeFresh, RecordAdmission, Warranted;
    var call, p := steps[k].call, preparations[k];
    var session := call.request.sessionId;
    var v := ViewOf(After(codec, steps[..k]), session);
    AdmissionAt(codec, steps, k);
    KnownIn(codec, steps, k, session);
    AdmittedFresh(codec, steps, k);
    if p.taken.lifecycle.Some? {
      PreparationIsExact(codec, steps, k, call, p);
      InstantIsWarranted(codec, session, v, call, p);
    } else {
      UnknownSessionIsBare(codec, steps, k, call, p);
      BareIsUnguarded(codec, session, v, call, p);
      var instant := Instant(codec, v, call, p);
      UnguardedVerdictIsExact(codec, steps, k, call, p);
      InstantIsBare(codec, v, call, p);
      InstantIsWarranted(codec, session, v, instant, p);
    }
  }

  lemma AdmittedFresh(codec: Codec, steps: seq<Step>, k: nat)
    requires Lawful(codec) && k < |steps| && steps[k].Deliver?
    requires Admits(codec, After(codec, steps[..k]), steps[k].call, steps[k].supply)
    ensures
      var v := ViewOf(After(codec, steps[..k]), steps[k].call.request.sessionId);
      JudgeFresh(v, steps[k].call).Admit? && steps[k].call.request.expectedVersion == v.task.stateVersion
  {
    hide After, ViewOf, Judge, JudgeFresh, RecordAdmission, ReachesGuards;
    ReachableInv(codec, steps[..k]);
    KnownTables(codec, After(codec, steps[..k]));
    AdmitIsKnown(codec, After(codec, steps[..k]), steps[k].call);
    AdmittedVersion(ViewOf(After(codec, steps[..k]), steps[k].call.request.sessionId), steps[k].call);
  }

  lemma AdmittedVersion(v: View, call: TransitionCall)
    requires JudgeFresh(v, call).Admit?
    ensures call.request.expectedVersion == v.task.stateVersion
  {
  }

  /** A call prepared for a session that was not there gets through only where nothing is guarded. */
  lemma BareIsUnguarded(codec: Codec, session: string, v: View, call: TransitionCall, p: Preparation)
    requires SessionInv(codec, session, v) && call.guards == UnderContext(EMPTY_CONTEXT) && call.boundPlan.None?
    requires JudgeFresh(v, call).Admit?
    ensures TransitionGuardRequirement(v.task.status, call.request.target) == NoGuard
  {
    hide SessionInv, ValidateTransitionEvidence, PhaseOf, ReadWatermark, EvaluateLifecycleTransition;
  }

  /** And the other way: a warranted transition the graph leaves open extends the run, under a fresh key. */
  lemma WarrantedIsApplied(
    codec: Codec, c: Course, session: string, v: View, target: TaskStatus, input: Json, observed: Observation,
    prepared: PreparedPlan)
    returns (d: Course, w: View)
    requires Stands(codec, c, session, v) && Ample(codec, v, 2)
    requires target == ProofReady && v.task.status == Framed ==> v.plan.None?
    requires EvaluateLifecycleTransition(
               v.task.status, target, v.task.blockedFrom, Some(PhaseOf(v))).TransitionAllowed?
    requires Warranted(codec, v, target, input, observed, prepared)
    ensures Stands(codec, d, session, w) && Onward(c, d) && Went(codec, v, target, input, w)
  {
    hide After, ViewOf, Stands, JudgeFresh, PhaseOf, Went, Warranted, EvaluateLifecycleTransition, Lawful, SessionInv,
      StoreInv, PrepareCall;
    var request := TransitionRequest(session, target, v.task.stateVersion, Cli, input);
    var p := Reading(|c.steps|, v, |c.steps|, v, observed, prepared);
    DeploymentIsLawful(codec, |v.audit| + 2);
    StandsNow(codec, c, session, v);
    StandsIsReachable(codec, c, session, v);
    forall key
      ensures JudgeFresh(v, CallFrom(codec, request, key, p)).Admit?
      ensures CallFrom(codec, request, key, p).boundPlan.Some? ==> v.plan.None?
    {
      var call := CallFrom(codec, request, key, p);
      PreparedKeepsRequest(codec, request, key, false, p.taken, observed, prepared);
      InstantIsWarranted(codec, session, v, call, p);
      InstantCases(codec, v, call, p);
    }
    var call;
    d, w, call := Go(codec, c, session, v, request, p);
  }
}

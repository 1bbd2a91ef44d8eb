/** Stored receipts and what they prove: src/domain/proof.ts, the CI half of attestation.ts, and review.ts. */
module ProofEvidence {
  import opened Options
  import opened JsonValues
  import opened SessionTransition
  import Rows

  datatype GateResult =
    | GatePassed
    | GateFailed
    | GateTimedOut
    | GateAborted
    | GateInvalidated
    | GateExecutionError
    | GateCleanupFailed
    | GateSetupFailed

  datatype GateReceipt = GateReceipt(
    sequence: int, id: string, gateId: string, planSha256: string, headBefore: Text, headAfter: Text,
    result: GateResult, stateVersion: int)

  datatype SignedGateReceipt = SignedGateReceipt(
    sequence: int, id: string, gateId: string, planSha256: string, subjectHeadSha: Text, packageSha256: string,
    stateVersion: int)

  datatype ReviewThread = ReviewThread(id: string, resolved: bool, outdated: bool)

  datatype ReviewReceipt = ReviewReceipt(
    sequence: int, id: string, planSha256: string, pullRequestNumber: int, subjectHeadSha: Text, packageSha256: string,
    observedAt: int, decision: Option<ReviewDecision>, threads: seq<ReviewThread>, approvals: seq<Approval>,
    merged: bool, stateVersion: int)

  /** The two payload fields a local receipt adds once its JSON, digests and setup record have been validated. */
  datatype ReceiptPayload = ReceiptPayload(cleanBefore: bool, cleanAfter: bool)

  /**
   * What re-reading the artifact files found: the payload of every local receipt that validates, and the identifiers
   * of the signed receipts whose stored package still verifies.
   */
  datatype Inspection = Inspection(
    payloads: map<string, ReceiptPayload>, verifiedCi: set<string>, verifiedReviews: set<string>)

  // ----- the newest receipt for a gate

  /** The last row with this key. */
  function LastWith<T>(rows: seq<T>, key: T -> string, wanted: string): Option<T> {
    if rows == [] then None
    else if key(rows[|rows| - 1]) == wanted then Some(rows[|rows| - 1])
    else LastWith(rows[..|rows| - 1], key, wanted)
  }

  /** The loop of `latestBy`: sorted by sequence, later receipts overwrite earlier ones. */
  method LatestBy<T>(receipts: seq<T>, key: T -> string, sequence: T -> int) returns (latest: map<string, T>)
    ensures forall k :: (k in latest <==> Latest(receipts, key, sequence, k).Some?)
                        && (k in latest ==> latest[k] == Latest(receipts, key, sequence, k).value)
  {
    var sorted := Rows.OrderBy(receipts, sequence);
    latest := map[];
    for n := 0 to |sorted|
      invariant forall k :: (k in latest <==> LastWith(sorted[..n], key, k).Some?)
                            && (k in latest ==> latest[k] == LastWith(sorted[..n], key, k).value)
    {
      assert sorted[..n + 1][..n] == sorted[..n];
      latest := latest[key(sorted[n]) := sorted[n]];
    }
    assert sorted[..|sorted|] == sorted;
  }

  function Latest<T>(receipts: seq<T>, key: T -> string, sequence: T -> int, wanted: string): Option<T> {
    LastWith(Rows.OrderBy(receipts, sequence), key, wanted)
  }

  /** `r` is the receipt to trust for its key: none with that key is newer. */
  ghost predicate IsNewest<T>(receipts: seq<T>, key: T -> string, sequence: T -> int, r: T) {
    r in receipts && forall o :: o in receipts && key(o) == key(r) ==> sequence(o) <= sequence(r)
  }

  lemma {:induction false} LastWithIsLast<T>(rows: seq<T>, key: T -> string, sequence: T -> int, wanted: string)
    requires Rows.InOrder(rows, sequence)
    ensures
      match LastWith(rows, key, wanted)
      case None => forall r :: r in rows ==> key(r) != wanted
      case Some(last) => key(last) == wanted && IsNewest(rows, key, sequence, last)
  {
    if rows != [] {
      var n := |rows| - 1;
      assert rows == rows[..n] + [rows[n]];
      if key(rows[n]) != wanted { LastWithIsLast(rows[..n], key, sequence, wanted); }
    }
  }

  /** Whatever order the receipts arrive in, `latestBy` keeps a newest receipt for every key, and loses no key. */
  lemma LatestIsNewest<T>(receipts: seq<T>, key: T -> string, sequence: T -> int, wanted: string)
    ensures
      match Latest(receipts, key, sequence, wanted)
      case None => forall r :: r in receipts ==> key(r) != wanted
      case Some(latest) => key(latest) == wanted && IsNewest(receipts, key, sequence, latest)
  {
    var sorted := Rows.OrderBy(receipts, sequence);
    Rows.OrderBySorts(receipts, sequence);
    assert forall r :: r in receipts <==> r in multiset(receipts);
    assert forall r :: r in sorted <==> r in multiset(sorted);
    LastWithIsLast(Rows.OrderBy(receipts, sequence), key, sequence, wanted);
  }

  function GateOf(receipt: GateReceipt): string { receipt.gateId }

  function GateSequence(receipt: GateReceipt): int { receipt.sequence }

  function SignedGateOf(receipt: SignedGateReceipt): string { receipt.gateId }

  function SignedGateSequence(receipt: SignedGateReceipt): int { receipt.sequence }

  function ReviewSequence(receipt: ReviewReceipt): int { receipt.sequence }

  ghost predicate DistinctSequences<T>(receipts: seq<T>, sequence: T -> int) {
    forall r, o :: r in receipts && o in receipts && sequence(r) == sequence(o) ==> r == o
  }

  // ----- aggregate status

  function AggregateGateStatus(statuses: seq<EvidenceStatus>): EvidenceStatus {
    if forall i :: 0 <= i < |statuses| ==> statuses[i] == Passed then Passed
    else if Corrupt in statuses then Corrupt
    else if SetupFailed in statuses then SetupFailed
    else if Failed in statuses then Failed
    else if Stale in statuses then Stale
    else Missing
  }

  /** `!input.currentHead`: both `null` and the empty string count as no HEAD. */
  predicate IsHead(currentHead: Option<Text>, head: Text) {
    currentHead == Some(head) && head != []
  }

  function GateStatus(
    plan: BoundPlan, latest: Option<GateReceipt>, currentHead: Option<Text>, inspection: Inspection): EvidenceStatus
  {
    if latest.None? then Missing
    else
      var receipt := latest.value;
      if receipt.id !in inspection.payloads then Corrupt
      else if receipt.planSha256 != plan.sha256 || !IsHead(currentHead, receipt.headBefore)
              || !IsHead(currentHead, receipt.headAfter) then Stale
      else if receipt.result == GatePassed && inspection.payloads[receipt.id].cleanBefore
              && inspection.payloads[receipt.id].cleanAfter then Passed
      else if receipt.result == GateSetupFailed then SetupFailed
      else Failed
  }

  function GateStatuses(
    plan: BoundPlan, receipts: seq<GateReceipt>, currentHead: Option<Text>, inspection: Inspection)
    : (statuses: seq<EvidenceStatus>)
  {
    seq(|plan.gates|, i requires 0 <= i < |plan.gates| =>
      GateStatus(plan, Latest(receipts, GateOf, GateSequence, plan.gates[i]), currentHead, inspection))
  }

  function EvaluateProofEvidence(
    plan: BoundPlan, receipts: seq<GateReceipt>, currentHead: Option<Text>, inspection: Inspection): EvidenceStatus
  {
    AggregateGateStatus(GateStatuses(plan, receipts, currentHead, inspection))
  }

  /** `receipt` is a clean pass of its gate at the live HEAD, under this very plan. */
  predicate ProvesGate(plan: BoundPlan, receipt: GateReceipt, currentHead: Option<Text>, inspection: Inspection) {
    && receipt.result == GatePassed
    && receipt.planSha256 == plan.sha256
    && currentHead == Some(receipt.headBefore) && currentHead == Some(receipt.headAfter) && receipt.headAfter != []
    && receipt.id in inspection.payloads
    && inspection.payloads[receipt.id] == ReceiptPayload(true, true)
  }

  /** Some newest receipt of `gate` proves it. */
  ghost predicate GateProved(
    plan: BoundPlan, receipts: seq<GateReceipt>, gate: string, currentHead: Option<Text>, inspection: Inspection)
  {
    exists r :: IsNewest(receipts, GateOf, GateSequence, r) && r.gateId == gate
                && ProvesGate(plan, r, currentHead, inspection)
  }

  lemma NewestIsUnique<T>(receipts: seq<T>, key: T -> string, sequence: T -> int, r: T, o: T)
    requires DistinctSequences(receipts, sequence) && key(r) == key(o)
    requires IsNewest(receipts, key, sequence, r) && IsNewest(receipts, key, sequence, o)
    ensures r == o
  {
    assert sequence(r) == sequence(o);
  }

  /** Local proof passes exactly when the newest receipt of every declared gate is a clean pass at the live HEAD. */
  lemma LocalProofIsExact(
    plan: BoundPlan, receipts: seq<GateReceipt>, currentHead: Option<Text>, inspection: Inspection)
    requires DistinctSequences(receipts, GateSequence)
    ensures
      EvaluateProofEvidence(plan, receipts, currentHead, inspection) == Passed
      <==> forall gate :: gate in plan.gates ==> GateProved(plan, receipts, gate, currentHead, inspection)
  {
    var statuses := GateStatuses(plan, receipts, currentHead, inspection);
    forall i | 0 <= i < |plan.gates|
      ensures statuses[i] == Passed <==> GateProved(plan, receipts, plan.gates[i], currentHead, inspection)
    {
      GateStatusIsExact(plan, receipts, plan.gates[i], currentHead, inspection);
    }
    assert forall i :: 0 <= i < |plan.gates| ==> plan.gates[i] in plan.gates;
  }

  lemma GateStatusIsExact(
    plan: BoundPlan, receipts: seq<GateReceipt>, gate: string, currentHead: Option<Text>, inspection: Inspection)
    requires DistinctSequences(receipts, GateSequence)
    ensures
      GateStatus(plan, Latest(receipts, GateOf, GateSequence, gate), currentHead, inspection) == Passed
      <==> GateProved(plan, receipts, gate, currentHead, inspection)
  {
    var latest := Latest(receipts, GateOf, GateSequence, gate);
    LatestIsNewest(receipts, GateOf, GateSequence, gate);
    if GateProved(plan, receipts, gate, currentHead, inspection) {
      var r :| IsNewest(receipts, GateOf, GateSequence, r) && r.gateId == gate
               && ProvesGate(plan, r, currentHead, inspection);
      assert GateOf(r) == gate;
      NewestIsUnique(receipts, GateOf, GateSequence, r, latest.value);
    }
  }

  // ----- every other status, gate by gate

  /** `r` is the newest receipt of its gate and its artifact still validates. */
  ghost predicate IsIntact(receipts: seq<GateReceipt>, gate: string, inspection: Inspection, r: GateReceipt) {
    IsNewest(receipts, GateOf, GateSequence, r) && r.gateId == gate && r.id in inspection.payloads
  }

  ghost predicate GateUnrun(receipts: seq<GateReceipt>, gate: string) {
    forall r :: r in receipts ==> r.gateId != gate
  }

  ghost predicate GateTampered(receipts: seq<GateReceipt>, gate: string, inspection: Inspection) {
    exists r :: IsNewest(receipts, GateOf, GateSequence, r) && r.gateId == gate && r.id !in inspection.payloads
  }

  /** The receipt is about another plan, or about another HEAD, before or after the run. */
  predicate IsOutdated(plan: BoundPlan, receipt: GateReceipt, currentHead: Option<Text>) {
    || receipt.planSha256 != plan.sha256
    || currentHead != Some(receipt.headBefore) || currentHead != Some(receipt.headAfter) || receipt.headAfter == []
  }

  ghost predicate GateOutdated(
    plan: BoundPlan, receipts: seq<GateReceipt>, gate: string, currentHead: Option<Text>, inspection: Inspection)
  {
    exists r :: IsIntact(receipts, gate, inspection, r) && IsOutdated(plan, r, currentHead)
  }

  ghost predicate GateSetupBroke(
    plan: BoundPlan, receipts: seq<GateReceipt>, gate: string, currentHead: Option<Text>, inspection: Inspection)
  {
    exists r :: IsIntact(receipts, gate, inspection, r) && !IsOutdated(plan, r, currentHead)
                && r.result == GateSetupFailed
  }

  /** It ran at the live HEAD under this plan, past its setup, and was no clean pass. */
  ghost predicate GateRefuted(
    plan: BoundPlan, receipts: seq<GateReceipt>, gate: string, currentHead: Option<Text>, inspection: Inspection)
  {
    exists r :: IsIntact(receipts, gate, inspection, r) && !IsOutdated(plan, r, currentHead)
                && r.result != GateSetupFailed && !ProvesGate(plan, r, currentHead, inspection)
  }

  lemma GateStatusesAreExact(
    plan: BoundPlan, receipts: seq<GateReceipt>, gate: string, currentHead: Option<Text>, inspection: Inspection)
    requires DistinctSequences(receipts, GateSequence)
    ensures
      var status := GateStatus(plan, Latest(receipts, GateOf, GateSequence, gate), currentHead, inspection);
      && (status == Missing <==> GateUnrun(receipts, gate))
      && (status == Corrupt <==> GateTampered(receipts, gate, inspection))
      && (status == Stale <==> GateOutdated(plan, receipts, gate, currentHead, inspection))
      && (status == SetupFailed <==> GateSetupBroke(plan, receipts, gate, currentHead, inspection))
      && (status == Failed <==> GateRefuted(plan, receipts, gate, currentHead, inspection))
  {
    hide Latest, IsNewest;
    LatestIsNewest(receipts, GateOf, GateSequence, gate);
    var latest := Latest(receipts, GateOf, GateSequence, gate);
    if latest.Some? {
      assert IsNewest(receipts, GateOf, GateSequence, latest.value);
      if latest.value.id in inspection.payloads { assert IsIntact(receipts, gate, inspection, latest.value); }
      forall r | IsNewest(receipts, GateOf, GateSequence, r) && r.gateId == gate ensures r == latest.value {
        NewestIsUnique(receipts, GateOf, GateSequence, r, latest.value);
      }
      NewestIsThere(receipts, latest.value);
    } else {
      assert forall r :: r in receipts ==> GateOf(r) != gate;
      NothingIsNewest(receipts, gate);
    }
  }

  lemma NewestIsThere(receipts: seq<GateReceipt>, r: GateReceipt)
    requires IsNewest(receipts, GateOf, GateSequence, r)
    ensures !GateUnrun(receipts, r.gateId)
  {
  }

  lemma NothingIsNewest(receipts: seq<GateReceipt>, gate: string)
    requires forall r :: r in receipts ==> GateOf(r) != gate
    ensures forall r :: IsNewest(receipts, GateOf, GateSequence, r) ==> r.gateId != gate
  {
  }

  /**
   * The status of the whole is the gravest status of a gate: a tampered receipt before a broken setup, that before a
   * real failure, that before an outdated receipt, and that before a gate that has not run.
   */
  lemma ProofStatusIsExact(
    plan: BoundPlan, receipts: seq<GateReceipt>, currentHead: Option<Text>, inspection: Inspection)
    requires DistinctSequences(receipts, GateSequence)
    ensures
      var status := EvaluateProofEvidence(plan, receipts, currentHead, inspection);
      var tampered := exists g :: g in plan.gates && GateTampered(receipts, g, inspection);
      var broke := exists g :: g in plan.gates && GateSetupBroke(plan, receipts, g, currentHead, inspection);
      var refuted := exists g :: g in plan.gates && GateRefuted(plan, receipts, g, currentHead, inspection);
      var outdated := exists g :: g in plan.gates && GateOutdated(plan, receipts, g, currentHead, inspection);
      var unrun := exists g :: g in plan.gates && GateUnrun(receipts, g);
      && (status == Corrupt <==> tampered)
      && (status == SetupFailed <==> broke && !tampered)
      && (status == Failed <==> refuted && !broke && !tampered)
      && (status == Stale <==> outdated && !refuted && !broke && !tampered)
      && (status == Missing <==> unrun && !outdated && !refuted && !broke && !tampered)
  {
    hide GateStatus, GateUnrun, GateTampered, GateOutdated, GateSetupBroke, GateRefuted, Latest;
    var statuses := GateStatuses(plan, receipts, currentHead, inspection);
    forall i | 0 <= i < |plan.gates|
      ensures statuses[i] == Missing <==> GateUnrun(receipts, plan.gates[i])
      ensures statuses[i] == Corrupt <==> GateTampered(receipts, plan.gates[i], inspection)
      ensures statuses[i] == Stale <==> GateOutdated(plan, receipts, plan.gates[i], currentHead, inspection)
      ensures statuses[i] == SetupFailed <==> GateSetupBroke(plan, receipts, plan.gates[i], currentHead, inspection)
      ensures statuses[i] == Failed <==> GateRefuted(plan, receipts, plan.gates[i], currentHead, inspection)
    {
      GateStatusesAreExact(plan, receipts, plan.gates[i], currentHead, inspection);
    }
    GatesAreListed(plan.gates, statuses);
    AggregateIsGravest(statuses);
  }

  lemma GatesAreListed(gates: seq<string>, statuses: seq<EvidenceStatus>)
    requires |statuses| == |gates|
    ensures forall g :: g in gates <==> exists i :: 0 <= i < |gates| && gates[i] == g
    ensures forall s :: s in statuses <==> exists i :: 0 <= i < |gates| && statuses[i] == s
  {
  }

  lemma AggregateIsGravest(statuses: seq<EvidenceStatus>)
    ensures
      var status := AggregateGateStatus(statuses);
      && (status == Corrupt <==> Corrupt in statuses)
      && (status == SetupFailed <==> SetupFailed in statuses && Corrupt !in statuses)
      && (status == Failed <==> Failed in statuses && SetupFailed !in statuses && Corrupt !in statuses)
      && (status == Stale
          <==> Stale in statuses && Failed !in statuses && SetupFailed !in statuses && Corrupt !in statuses)
      && (status == Missing
          <==> Missing in statuses && Stale !in statuses && Failed !in statuses && SetupFailed !in statuses
               && Corrupt !in statuses)
  {
    if i :| 0 <= i < |statuses| && statuses[i] != Passed { assert statuses[i] in statuses; }
  }

  // ----- signed CI evidence

  function CiGateStatus(
    plan: BoundPlan, latest: Option<SignedGateReceipt>, currentHead: Option<Text>, inspection: Inspection): CiStatus
  {
    if latest.None? then CiMissing
    else if latest.value.id !in inspection.verifiedCi then CiCorrupt
    else if latest.value.planSha256 != plan.sha256 || !IsHead(currentHead, latest.value.subjectHeadSha) then CiStale
    else CiPassed
  }

  function CiGateStatuses(
    plan: BoundPlan, receipts: seq<SignedGateReceipt>, currentHead: Option<Text>, inspection: Inspection): seq<CiStatus>
  {
    seq(|plan.gates|, i requires 0 <= i < |plan.gates| =>
      CiGateStatus(plan, Latest(receipts, SignedGateOf, SignedGateSequence, plan.gates[i]), currentHead, inspection))
  }

  function EvaluateCiProofEvidence(
    plan: BoundPlan, receipts: seq<SignedGateReceipt>, currentHead: Option<Text>, inspection: Inspection): CiStatus
  {
    var statuses := CiGateStatuses(plan, receipts, currentHead, inspection);
    if !plan.signedCi then CiPolicyMissing
    else if forall i :: 0 <= i < |statuses| ==> statuses[i] == CiPassed then CiPassed
    else if CiCorrupt in statuses then CiCorrupt
    else if CiStale in statuses then CiStale
    else CiMissing
  }

  /** The newest imported package of `gate` still verifies, and vouches for the live HEAD under this plan. */
  ghost predicate CiGateProved(
    plan: BoundPlan, receipts: seq<SignedGateReceipt>, gate: string, currentHead: Option<Text>, inspection: Inspection)
  {
    exists r :: IsNewest(receipts, SignedGateOf, SignedGateSequence, r) && r.gateId == gate
                && r.id in inspection.verifiedCi && r.planSha256 == plan.sha256
                && currentHead == Some(r.subjectHeadSha) && r.subjectHeadSha != []
  }

  lemma CiGateStatusIsExact(
    plan: BoundPlan, receipts: seq<SignedGateReceipt>, gate: string, currentHead: Option<Text>, inspection: Inspection)
    requires DistinctSequences(receipts, SignedGateSequence)
    ensures
      CiGateStatus(plan, Latest(receipts, SignedGateOf, SignedGateSequence, gate), currentHead, inspection) == CiPassed
      <==> CiGateProved(plan, receipts, gate, currentHead, inspection)
  {
    var latest := Latest(receipts, SignedGateOf, SignedGateSequence, gate);
    LatestIsNewest(receipts, SignedGateOf, SignedGateSequence, gate);
    if CiGateProved(plan, receipts, gate, currentHead, inspection) {
      var r :| IsNewest(receipts, SignedGateOf, SignedGateSequence, r) && r.gateId == gate
               && r.id in inspection.verifiedCi && r.planSha256 == plan.sha256
               && currentHead == Some(r.subjectHeadSha) && r.subjectHeadSha != [];
      assert SignedGateOf(r) == gate;
      NewestIsUnique(receipts, SignedGateOf, SignedGateSequence, r, latest.value);
    }
  }

  /** CI proof passes exactly when the plan asks for it and every gate's newest package vouches for the live HEAD. */
  lemma CiProofIsExact(
    plan: BoundPlan, receipts: seq<SignedGateReceipt>, currentHead: Option<Text>, inspection: Inspection)
    requires DistinctSequences(receipts, SignedGateSequence)
    ensures
      EvaluateCiProofEvidence(plan, receipts, currentHead, inspection) == CiPassed
      <==> plan.signedCi
           && forall gate :: gate in plan.gates ==> CiGateProved(plan, receipts, gate, currentHead, inspection)
  {
    var statuses := CiGateStatuses(plan, receipts, currentHead, inspection);
    forall i | 0 <= i < |plan.gates|
      ensures statuses[i] == CiPassed <==> CiGateProved(plan, receipts, plan.gates[i], currentHead, inspection)
    {
      CiGateStatusIsExact(plan, receipts, plan.gates[i], currentHead, inspection);
    }
    assert forall i :: 0 <= i < |plan.gates| ==> plan.gates[i] in plan.gates;
  }

  /** The newest package of `gate`, if its artifact still verifies. */
  ghost predicate IsVerified(
    receipts: seq<SignedGateReceipt>, gate: string, inspection: Inspection, r: SignedGateReceipt)
  {
    IsNewest(receipts, SignedGateOf, SignedGateSequence, r) && r.gateId == gate && r.id in inspection.verifiedCi
  }

  ghost predicate CiGateAbsent(receipts: seq<SignedGateReceipt>, gate: string) {
    forall r :: r in receipts ==> r.gateId != gate
  }

  ghost predicate CiGateTampered(receipts: seq<SignedGateReceipt>, gate: string, inspection: Inspection) {
    exists r :: IsNewest(receipts, SignedGateOf, SignedGateSequence, r) && r.gateId == gate
                && r.id !in inspection.verifiedCi
  }

  ghost predicate CiGateOutdated(
    plan: BoundPlan, receipts: seq<SignedGateReceipt>, gate: string, currentHead: Option<Text>, inspection: Inspection)
  {
    exists r :: IsVerified(receipts, gate, inspection, r)
                && (r.planSha256 != plan.sha256 || currentHead != Some(r.subjectHeadSha) || r.subjectHeadSha == [])
  }

  lemma CiGateStatusesAreExact(
    plan: BoundPlan, receipts: seq<SignedGateReceipt>, gate: string, currentHead: Option<Text>, inspection: Inspection)
    requires DistinctSequences(receipts, SignedGateSequence)
    ensures
      var latest := Latest(receipts, SignedGateOf, SignedGateSequence, gate);
      var status := CiGateStatus(plan, latest, currentHead, inspection);
      && status != CiPolicyMissing
      && (status == CiMissing <==> CiGateAbsent(receipts, gate))
      && (status == CiCorrupt <==> CiGateTampered(receipts, gate, inspection))
      && (status == CiStale <==> CiGateOutdated(plan, receipts, gate, currentHead, inspection))
  {
    hide Latest, IsNewest;
    LatestIsNewest(receipts, SignedGateOf, SignedGateSequence, gate);
    var latest := Latest(receipts, SignedGateOf, SignedGateSequence, gate);
    if latest.Some? {
      if latest.value.id in inspection.verifiedCi { assert IsVerified(receipts, gate, inspection, latest.value); }
      forall r | IsNewest(receipts, SignedGateOf, SignedGateSequence, r) && r.gateId == gate ensures r == latest.value {
        NewestIsUnique(receipts, SignedGateOf, SignedGateSequence, r, latest.value);
      }
      NewestPackageIsThere(receipts, latest.value);
    } else {
      NoPackageIsNewest(receipts, gate);
    }
  }

  lemma NewestPackageIsThere(receipts: seq<SignedGateReceipt>, r: SignedGateReceipt)
    requires IsNewest(receipts, SignedGateOf, SignedGateSequence, r)
    ensures !CiGateAbsent(receipts, r.gateId)
  {
  }

  lemma NoPackageIsNewest(receipts: seq<SignedGateReceipt>, gate: string)
    requires forall r :: r in receipts ==> SignedGateOf(r) != gate
    ensures forall r :: IsNewest(receipts, SignedGateOf, SignedGateSequence, r) ==> r.gateId != gate
    ensures CiGateAbsent(receipts, gate)
  {
    assert forall r :: r in receipts ==> SignedGateOf(r) == r.gateId;
  }

  /** The gravest package decides: tampered before outdated before absent. */
  lemma CiStatusIsExact(
    plan: BoundPlan, receipts: seq<SignedGateReceipt>, currentHead: Option<Text>, inspection: Inspection)
    requires DistinctSequences(receipts, SignedGateSequence)
    ensures
      var status := EvaluateCiProofEvidence(plan, receipts, currentHead, inspection);
      var tampered := exists g :: g in plan.gates && CiGateTampered(receipts, g, inspection);
      var outdated := exists g :: g in plan.gates && CiGateOutdated(plan, receipts, g, currentHead, inspection);
      var absent := exists g :: g in plan.gates && CiGateAbsent(receipts, g);
      && (status == CiPolicyMissing <==> !plan.signedCi)
      && (status == CiCorrupt <==> plan.signedCi && tampered)
      && (status == CiStale <==> plan.signedCi && outdated && !tampered)
      && (status == CiMissing <==> plan.signedCi && absent && !outdated && !tampered)
  {
    hide CiGateStatus, CiGateAbsent, CiGateTampered, CiGateOutdated, Latest;
    var statuses := CiGateStatuses(plan, receipts, currentHead, inspection);
    forall i | 0 <= i < |plan.gates|
      ensures statuses[i] != CiPolicyMissing
      ensures statuses[i] == CiMissing <==> CiGateAbsent(receipts, plan.gates[i])
      ensures statuses[i] == CiCorrupt <==> CiGateTampered(receipts, plan.gates[i], inspection)
      ensures statuses[i] == CiStale <==> CiGateOutdated(plan, receipts, plan.gates[i], currentHead, inspection)
    {
      CiGateStatusesAreExact(plan, receipts, plan.gates[i], currentHead, inspection);
    }
    assert forall g :: g in plan.gates <==> exists i :: 0 <= i < |plan.gates| && plan.gates[i] == g;
    assert forall s :: s in statuses <==> exists i :: 0 <= i < |plan.gates| && statuses[i] == s;
  }

  // ----- signed review evidence

  /** The snapshot with the highest sequence. */
  function NewestReview(receipts: seq<ReviewReceipt>): Option<ReviewReceipt> {
    if receipts == [] then None
    else
      var last := receipts[|receipts| - 1];
      var earlier := NewestReview(receipts[..|receipts| - 1]);
      if earlier.None? || earlier.value.sequence < last.sequence then Some(last) else earlier
  }

  function BlockingThreads(threads: seq<ReviewThread>): seq<string> {
    if threads == [] then []
    else
      (if threads[0].resolved || threads[0].outdated then [] else [threads[0].id]) + BlockingThreads(threads[1..])
  }

  function EmptyReviewEvidence(status: ReviewStatus): ReviewEvidence {
    ReviewEvidence(status, None, None, None, [], [], false)
  }

  function ReviewEvidenceFromArtifact(receipt: ReviewReceipt, currentHead: Option<Text>): ReviewEvidence {
    ReviewEvidence(
      if IsHead(currentHead, receipt.subjectHeadSha) then ReviewCurrent else ReviewStale,
      Some(receipt.id), Some(receipt.subjectHeadSha), receipt.decision, BlockingThreads(receipt.threads),
      receipt.approvals, receipt.merged)
  }

  function EvaluateReviewEvidence(
    plan: BoundPlan, receipts: seq<ReviewReceipt>, currentHead: Option<Text>, inspection: Inspection): ReviewEvidence
  {
    var newest := NewestReview(receipts);
    if !plan.signedReview then EmptyReviewEvidence(ReviewPolicyMissing)
    else if newest.None? then EmptyReviewEvidence(ReviewMissing)
    else if newest.value.id !in inspection.verifiedReviews then
      EmptyReviewEvidence(ReviewCorrupt).(
        snapshotId := Some(newest.value.id), headSha := Some(newest.value.subjectHeadSha))
    else
      var evidence := ReviewEvidenceFromArtifact(newest.value, currentHead);
      if newest.value.planSha256 == plan.sha256 then evidence else evidence.(status := ReviewStale)
  }

  lemma {:induction false} BlockingThreadsAreOpen(threads: seq<ReviewThread>)
    ensures BlockingThreads(threads) == [] <==> forall t :: t in threads ==> t.resolved || t.outdated
  {
    if threads != [] {
      BlockingThreadsAreOpen(threads[1..]);
      assert threads == [threads[0]] + threads[1..];
    }
  }

  lemma {:induction false} NewestReviewIsLast(receipts: seq<ReviewReceipt>)
    requires Rows.Ascending(receipts, ReviewSequence)
    ensures NewestReview(receipts) == if receipts == [] then None else Some(receipts[|receipts| - 1])
  {
    if receipts != [] { NewestReviewIsLast(receipts[..|receipts| - 1]); }
  }

  /** The last snapshot decides: whether it verifies, and then whether it is of this plan and the live HEAD. */
  lemma ReviewStatusIsExact(
    plan: BoundPlan, receipts: seq<ReviewReceipt>, currentHead: Option<Text>, inspection: Inspection)
    requires Rows.Ascending(receipts, ReviewSequence)
    ensures
      var evidence := EvaluateReviewEvidence(plan, receipts, currentHead, inspection);
      && (evidence.status == ReviewPolicyMissing <==> !plan.signedReview)
      && (evidence.status == ReviewMissing <==> plan.signedReview && receipts == [])
      && (plan.signedReview && receipts != [] ==>
            var last := receipts[|receipts| - 1];
            && (evidence.status == ReviewCorrupt <==> last.id !in inspection.verifiedReviews)
            && (evidence.status == ReviewCurrent
                <==> && last.id in inspection.verifiedReviews && last.planSha256 == plan.sha256
                     && currentHead == Some(last.subjectHeadSha) && last.subjectHeadSha != [])
            && (evidence.status == ReviewCurrent ==>
                  && evidence.headSha == Some(last.subjectHeadSha) && evidence.decision == last.decision
                  && evidence.approvals == last.approvals && evidence.merged == last.merged
                  && (evidence.blockingFindings == []
                      <==> forall t :: t in last.threads ==> t.resolved || t.outdated)))
  {
    NewestReviewIsLast(receipts);
    if receipts != [] { BlockingThreadsAreOpen(receipts[|receipts| - 1].threads); }
  }
}

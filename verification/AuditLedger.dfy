/**
 * The hash-linked audit ledger of src/domain/audit.ts. Canonical printing and SHA-256 are parameters: nothing is
 * assumed of them except where a lemma says so.
 */
module AuditLedger {
  import opened Options
  import opened JsonValues
  import opened Lifecycle
  import opened SessionTransition

  datatype AuditPayload =
    | SessionStarted(taskId: string, lifecycleState: TaskStatus)
    | AuditActivated(schemaV6Forward: bool, stateAtActivation: TaskStatus)
    | ProofReceiptRecorded(receiptId: string, gateId: string)
    | SignedProofReceiptImported(signedReceiptId: string, signedGateId: string, packageSha256: string)
    | SignedReviewReceiptImported(reviewReceiptId: string, reviewPackageSha256: string, pullRequestNumber: int)
    | GuardDecisionMade(idempotencyKey: string, decisionRequestSha256: string, fromStatus: TaskStatus,
                        targetStatus: TaskStatus, allowed: bool)
    | TransitionApplied(transitionId: string, requestSha256: string, fromState: TaskStatus, toState: TaskStatus,
                        fromStateVersion: int, toStateVersion: int, prePrReview: Option<PrePrReviewSummary>)

  /** The ledger names the findings of a pre-PR review, and leaves their text to the request. */
  datatype PrePrReviewSummary = PrePrReviewSummary(
    outcome: ReviewOutcome, headSha: Text, evidenceRef: Text, evidenceSha256: Text, findingCount: nat,
    findingIds: seq<Text>)

  function SummarizePrePrReview(review: PrePrReviewEvidence): PrePrReviewSummary {
    PrePrReviewSummary(
      review.outcome, review.headSha, review.evidenceRef, review.evidenceSha256, |review.findings|,
      seq(|review.findings|, i requires 0 <= i < |review.findings| => review.findings[i].id))
  }

  datatype AuditEvent = AuditEvent(
    id: string, sessionId: string, sequence: int, recordedAt: int, stateVersion: int, previousSha256: string,
    payload: AuditPayload)

  datatype StoredEvent = StoredEvent(value: AuditEvent, json: string, sha256: string)

  /** How this deployment prints an event canonically, and the digest it uses. */
  datatype Hashing = Hashing(canonical: AuditEvent -> string, digest: string -> string)

  function Repeat(c: char, n: nat): (text: string)
    ensures |text| == n && forall i :: 0 <= i < n ==> text[i] == c
  {
    if n == 0 then "" else Repeat(c, n - 1) + [c]
  }

  const ZERO_AUDIT_HASH := Repeat('0', 64)

  predicate IsSha256(hash: string) {
    |hash| == 64 && forall c :: c in hash ==> '0' <= c <= '9' || 'a' <= c <= 'f'
  }

  datatype VerificationError =
    | SequenceMismatch
    | LinkMismatch
    | CanonicalizationMismatch
    | HashMismatch
    | RootMismatch

  datatype Verification = Verification(
    valid: bool, count: nat, root: string, error: Option<VerificationError>, sequence: Option<nat>)

  // ----- creating and checking one event

  /** `None` where the source throws: a bad sequence, state version or previous hash. */
  function CreateAuditEvent(hashing: Hashing, event: AuditEvent): Option<StoredEvent> {
    if !IsSafeInteger(event.sequence) || event.sequence < 1 then None
    else if !IsSafeInteger(event.stateVersion) || event.stateVersion < 0 then None
    else if !IsSha256(event.previousSha256) then None
    else Some(StoredEvent(event, hashing.canonical(event), hashing.digest(hashing.canonical(event))))
  }

  function VerifyAuditEventIntegrity(hashing: Hashing, event: StoredEvent): Option<VerificationError> {
    if event.json != hashing.canonical(event.value) then Some(CanonicalizationMismatch)
    else if event.sha256 != hashing.digest(event.json) then Some(HashMismatch)
    else None
  }

  // ----- what a valid chain is

  function Root(events: seq<StoredEvent>): string {
    if events == [] then ZERO_AUDIT_HASH else events[|events| - 1].sha256
  }

  /** The first objection to the event at `index`, given that everything before it is in order. */
  function Objection(hashing: Hashing, events: seq<StoredEvent>, index: nat): Option<VerificationError>
    requires index < |events|
  {
    if events[index].value.sequence != index + 1 then Some(SequenceMismatch)
    else if events[index].value.previousSha256 != Root(events[..index]) then Some(LinkMismatch)
    else VerifyAuditEventIntegrity(hashing, events[index])
  }

  predicate ChainValid(hashing: Hashing, events: seq<StoredEvent>) {
    forall i :: 0 <= i < |events| ==> Objection(hashing, events, i).None?
  }

  /**
   * Walks the chain once, carrying the previous hash. A failure names the least failing event, the first check it
   * fails, and the root of the good prefix; success means the whole chain is linked.
   */
  method VerifyAuditChain(hashing: Hashing, events: seq<StoredEvent>, expectedRoot: Option<string>)
    returns (verification: Verification)
    ensures verification.count == |events|
    ensures verification.valid <==> verification.error.None?
    ensures verification.valid
            <==> ChainValid(hashing, events) && (expectedRoot.Some? ==> expectedRoot.value == Root(events))
    ensures ChainValid(hashing, events) ==> verification.root == Root(events) && verification.sequence.None?
    ensures ChainValid(hashing, events) && !verification.valid ==> verification.error == Some(RootMismatch)
    ensures !ChainValid(hashing, events) ==>
              exists least :: 0 <= least < |events|
                && ChainValid(hashing, events[..least])
                && verification.sequence == Some(least + 1)
                && verification.root == Root(events[..least])
                && Objection(hashing, events, least).Some?
                && verification.error == Objection(hashing, events, least)
  {
    var previous := ZERO_AUDIT_HASH;
    for index := 0 to |events|
      invariant forall i :: 0 <= i < index ==> Objection(hashing, events, i).None?
      invariant previous == Root(events[..index])
    {
      var event := events[index];
      PrefixObjections(hashing, events, index);
      assert ChainValid(hashing, events) ==> Objection(hashing, events, index).None?;
      if event.value.sequence != index + 1 {
        return Verification(false, |events|, previous, Some(SequenceMismatch), Some(index + 1));
      }
      if event.value.previousSha256 != previous {
        return Verification(false, |events|, previous, Some(LinkMismatch), Some(index + 1));
      }
      var integrity := VerifyAuditEventIntegrity(hashing, event);
      if integrity.Some? {
        return Verification(false, |events|, previous, integrity, Some(index + 1));
      }
      previous := event.sha256;
    }
    assert events[..|events|] == events;
    if expectedRoot.Some? && previous != expectedRoot.value {
      return Verification(false, |events|, previous, Some(RootMismatch), None);
    }
    return Verification(true, |events|, previous, None, None);
  }

  lemma PrefixObjections(hashing: Hashing, events: seq<StoredEvent>, n: nat)
    requires n <= |events|
    ensures forall i :: 0 <= i < n ==> Objection(hashing, events[..n], i) == Objection(hashing, events, i)
  {
    forall i | 0 <= i < n ensures Objection(hashing, events[..n], i) == Objection(hashing, events, i) {
      assert events[..n][..i] == events[..i];
    }
  }

  /** The digest the event at `index` must link to. */
  function LinkOf(events: seq<StoredEvent>, index: nat): string
    requires index <= |events|
  {
    if index == 0 then ZERO_AUDIT_HASH else events[index - 1].sha256
  }

  /** An objection names what is wrong first: the place in line, then the link, then the text, then its digest. */
  lemma ObjectionsAreNamed(hashing: Hashing, events: seq<StoredEvent>, index: nat)
    requires index < |events|
    ensures
      var event, objection := events[index], Objection(hashing, events, index);
      var inLine, linked := event.value.sequence == index + 1, event.value.previousSha256 == LinkOf(events, index);
      var printed, hashed := event.json == hashing.canonical(event.value), event.sha256 == hashing.digest(event.json);
      && (objection == Some(SequenceMismatch) <==> !inLine)
      && (objection == Some(LinkMismatch) <==> inLine && !linked)
      && (objection == Some(CanonicalizationMismatch) <==> inLine && linked && !printed)
      && (objection == Some(HashMismatch) <==> inLine && linked && printed && !hashed)
      && (objection.None? <==> inLine && linked && printed && hashed)
  {
    if index > 0 { assert events[..index][|events[..index]| - 1] == events[index - 1]; }
  }

  // ----- appending

  /** The event `appendAuditEvent` would add after `tail`, or `None` where it throws. */
  function NextEvent(
    hashing: Hashing, tail: Option<StoredEvent>, id: string, sessionId: string, recordedAt: int, stateVersion: int,
    payload: AuditPayload): Option<StoredEvent>
  {
    if tail.Some? && VerifyAuditEventIntegrity(hashing, tail.value).Some? then None
    else
      CreateAuditEvent(
        hashing,
        AuditEvent(
          id, sessionId, (if tail.Some? then tail.value.value.sequence else 0) + 1, recordedAt, stateVersion,
          if tail.Some? then tail.value.sha256 else ZERO_AUDIT_HASH, payload))
  }

  function Tail(events: seq<StoredEvent>): Option<StoredEvent> {
    if events == [] then None else Some(events[|events| - 1])
  }

  /**
   * After a linked ledger an event is made exactly for a safe version, a safe place in line and a digest for a root.
   */
  lemma NextEventIsExact(
    hashing: Hashing, events: seq<StoredEvent>, id: string, sessionId: string, recordedAt: int, stateVersion: int,
    payload: AuditPayload)
    requires ChainValid(hashing, events)
    ensures
      var next, root := NextEvent(hashing, Tail(events), id, sessionId, recordedAt, stateVersion, payload),
                        LinkOf(events, |events|);
      && (next.Some?
          <==> && stateVersion >= 0 && IsSafeInteger(stateVersion) && IsSafeInteger(|events| + 1)
               && |root| == 64 && forall i :: 0 <= i < 64 ==> '0' <= root[i] <= '9' || 'a' <= root[i] <= 'f')
      && (next.Some? ==>
            next.value.value
            == AuditEvent(id, sessionId, |events| + 1, recordedAt, stateVersion, root, payload))
  {
    if events != [] { ObjectionsAreNamed(hashing, events, |events| - 1); }
    var root := LinkOf(events, |events|);
    assert forall i :: 0 <= i < |root| ==> root[i] in root;
  }

  /** Checking only the tail is enough: the longer chain is valid exactly when the old one was. */
  lemma AppendKeepsChain(
    hashing: Hashing, events: seq<StoredEvent>, id: string, sessionId: string, recordedAt: int, stateVersion: int,
    payload: AuditPayload)
    requires NextEvent(hashing, Tail(events), id, sessionId, recordedAt, stateVersion, payload).Some?
    ensures
      var next := NextEvent(hashing, Tail(events), id, sessionId, recordedAt, stateVersion, payload).value;
      ChainValid(hashing, events + [next]) <==> ChainValid(hashing, events)
  {
    var next := NextEvent(hashing, Tail(events), id, sessionId, recordedAt, stateVersion, payload).value;
    var longer := events + [next];
    assert longer[..|events|] == events;
    PrefixObjections(hashing, longer, |events|);
    if ChainValid(hashing, events) {
      if events != [] { assert Objection(hashing, events, |events| - 1).None?; }
      assert Objection(hashing, longer, |events|).None?;
    }
    if ChainValid(hashing, longer) {
      assert forall i :: 0 <= i < |events| ==> Objection(hashing, longer, i).None?;
    }
  }

  // ----- a root commits to the ledger

  /** No two texts share a digest, no text digests to the all-zero root, and printing loses nothing. */
  ghost predicate CollisionFree(hashing: Hashing) {
    && (forall a, b :: hashing.digest(a) == hashing.digest(b) ==> a == b)
    && (forall a :: hashing.digest(a) != ZERO_AUDIT_HASH)
    && (forall x, y :: hashing.canonical(x) == hashing.canonical(y) ==> x == y)
  }

  lemma ChainPrefix(hashing: Hashing, events: seq<StoredEvent>, n: nat)
    requires ChainValid(hashing, events) && n <= |events|
    ensures ChainValid(hashing, events[..n])
  {
    PrefixObjections(hashing, events, n);
  }

  /** Two accepted ledgers with the same retained root are the same ledger, event by event. */
  lemma {:induction false} RootCommitsToLedger(hashing: Hashing, left: seq<StoredEvent>, right: seq<StoredEvent>)
    requires CollisionFree(hashing)
    requires ChainValid(hashing, left) && ChainValid(hashing, right) && Root(left) == Root(right)
    ensures left == right
  {
    if left != [] { LastEventIsHashed(hashing, left); }
    if right != [] { LastEventIsHashed(hashing, right); }
    if left != [] && right != [] {
      var l, r := |left| - 1, |right| - 1;
      assert left[l] == right[r];
      ChainPrefix(hashing, left, l);
      ChainPrefix(hashing, right, r);
      RootCommitsToLedger(hashing, left[..l], right[..r]);
      assert left == left[..l] + [left[l]] && right == right[..r] + [right[r]];
    }
  }

  lemma LastEventIsHashed(hashing: Hashing, events: seq<StoredEvent>)
    requires ChainValid(hashing, events) && events != []
    ensures
      var last := events[|events| - 1];
      && last.json == hashing.canonical(last.value)
      && last.sha256 == hashing.digest(last.json)
      && last.value.previousSha256 == Root(events[..|events| - 1])
  {
    assert Objection(hashing, events, |events| - 1).None?;
  }
}

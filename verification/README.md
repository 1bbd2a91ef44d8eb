# ThreadLoop in Dafny

ThreadLoop drives one coding session from `queued` to `completed` under a proof plan. This project models its five
parts that other parts of the program must be able to trust, and proves what holds over every run of them.

1. **The durable lifecycle controller** (`Lifecycle`, `SessionTransition`, `SessionTrace`, `ProofEvidence`, `AuditLedger`,
   `Rows`, `StoreTables`, `SessionStore`, `StoreAnswers`, `StoreInvariant`, `StoreSteps`, `StoreRuns`, `Store`,
   `Idempotency`, `HistoryAuthority`, `EvidenceTables`, `EvidenceImports`, `TableKeys`, `ReviewReading`,
   `SessionService`, `ServiceRuns`, `TransitionService`, `ServedTraces`, `SessionGuarantees`, `StoredEvidence`,
   `Admissions`, `PlannedTransitions`, `StrandedRepairs`, `Courses`, `RecordedEvidence`, `StaleReads`, `StaleRepairs`,
   `Warrants`, `FirstAnswers`, `PlanExplained`, `Journeys`). The tables are
   append-only sequences of rows of all sessions; a write transaction is a function from the committed tables to the next
   ones, and `Store.SqliteStore` runs the same transaction statement by statement with rollback. A *run* is any sequence
   of transactions by any callers. A *serviced* run is one whose transitions come from `transitionSession`, which reads
   the lifecycle, the idempotency key, the evidence watermark and the evidence at four different moments of the run and
   builds its guard context from them; other writers commit freely in between.
2. **The executor's commit protocol** (`CommitProtocol`, `LaunchOnce`). SQLite is a file whose COMMIT is atomic but may
   lose its reply, whose ROLLBACK may fail, and to which other processes commit whenever the write lock is free. On top,
   any number of runners and importers crash and restart around one registered Attempt.
3. **The I-JSON reader and canonical printer** (`JsonValues`, `JsonSyntax`, `JsonParser`, `JsonGrammar`, `JsonPrinter`,
   `JsonCanonical`, `JsonReader`, `JsonEncoder`), over UTF-16 code units and integers.
4. **Gate execution** against the rule that accepts its record (`GateRunner`).
5. **Smaller machines**: the effect chain (`EffectChain`, `EffectContract`), the supervised process (`ProcessSupervisor`,
   `SupervisorCauses`), and the DER string decoder (`DerString`).

Four facts about the code shape the statements.

* `transitionSession` compares the expected version with the version it read only in the branch that binds a plan
  (src/services/session-service.ts:328-332). For every call it prepares, `ServiceRuns.PreparationIsExact` says when the
  history read is still the history inside the transaction: exactly when the service found the session and the request
  expects the version found; the call is then the one prepared in one instant. `StaleReads.StaleReadIsMisprepared`
  exhibits both ways to fail that condition. Most guarantees about stored histories hold of every serviced run without
  it: the forward path, the one-way phase, the plan bound once, the clean review entry, and review entry and completion
  resting on stored evidence. Three need it, as the hypothesis `Prompted`: a guard context that is still true at commit,
  the repair budget, and a stranded repair staying stranded. The gap is the number of versions between the one that was
  read and the one that is expected. A caller who read a failed proof and expects two versions more for every repair and
  return that others make in between enters another repair, whatever the count has become
  (`StaleRepairs.StaleReadsOverdraw`); a caller whose lifecycle was read during an earlier repair, and who expects the
  version of a later one, leaves it on the earlier one's commit (`StaleRepairs.StaleExitLeaves`).
  `Journeys.BudgetIsOverdrawn` and `Journeys.StrandedIsLeft` do both from the empty store.
* `initialize` reports a durable registration as an ordinary error exactly when closing the connection fails
  (src/adapters/fs/gaap-state.ts:121-122); `mutate` does not have this gap.
* An invalidated gate run makes the proof `failed`, so the planner proposes a repair, but it is no commit a repair can
  start from. `SessionService.RepairLeavesExactly` says when `repairing` can be left again, and
  `StrandedRepairs.StrandedRepairStays` that a session that entered it without such a commit never leaves it.
* The history reader counts the applied events and looks up the row each of them names, but does not ask that they name
  different rows. Every covered row has its event exactly when no transition is named twice
  (`HistoryAuthority.EveryRowIsDescribed`); under such a ledger the rows cannot be altered, dropped, added or swapped
  (`LedgerDeterminesHistory`), and every ledger of a run is one (`WrittenHistoryIsPinned`). `TwiceNamedIsAccepted` is a linked
  ledger that leaves the second row free.

Identifiers, clocks, Git, the file system outside the executor state, signatures and digests are parameters. Nothing is
assumed of a digest or of canonical printing except where a lemma says so. `Lawful`: a printed request input parses
back, and digests are 64 lowercase hexadecimal characters. `CollisionFree`, used for ledger roots alone and never
together with `Lawful`: no two texts share a digest, none digests to the zero root, and printing loses nothing.
`SeparatesEvents`, used where a row is shown to be written: the first `n` events of a ledger differ in digest;
`Deployment` is the two together with `n` a safe integer.

## Model

| member | source | states |
|---|---|---|
| SessionTransition.ReadFindings | src/domain/session-transition.ts:655-683 | the loop over `pre_pr_review.findings` returns the findings exactly when every element is a finding and no identifier repeats |
| ReviewReading.ReviewReadingIsExact | src/domain/session-transition.ts:640-683 | the reader returns a review exactly when the input carries it and it is well formed: outcome, full commit, reference, digest, and findings that match the outcome |
| SessionTransition.PlannerIsExact | src/domain/session-transition.ts:695-894 | for every state and context, a target is open to the graph and the guards with empty input if and only if it is the planner's executable candidate |
| PlanExplained.FailedGateIsPlanned | src/domain/session-transition.ts:791-858 | a gate that really failed, even beside outdated or missing ones, is planned as `implementing` before the first review and as `repairing` after it, or as a block once three repairs are used |
| PlanExplained.PassedProofIsPlanned | src/domain/session-transition.ts:791-858 | passing local proof leads to the review of its phase, executable exactly from the plan's clean branch with CI that passes too |
| PlanExplained.TroubleIsNamed | src/domain/session-transition.ts:859-894 | without a failed gate, corrupt, unprovisioned, stale and missing receipts are each named, the gravest first, and nothing is proposed |
| PlanExplained.OtherPlans | src/domain/session-transition.ts:695-789 | outside `verifying`: what is over, what a person must undo or judge, and otherwise one forward candidate that fails exactly when it is not executable |
| SessionTrace.ValidIsHistory | src/domain/lifecycle.ts:42-146 | in every valid history the state underneath a block lies on the side of the graph its phase says, the plan is bound once, and review is first entered once |
| SessionTrace.PhaseIsOneWay | src/domain/lifecycle.ts:148-156 | after `reviewing` was first entered, the state and any blocked-from state stay on the post-PR side for ever |
| SessionTrace.RepairBudgetHolds | src/domain/session-transition.ts:194-209 | no history under contexts that are true when they are used holds more than three repair entries |
| SessionTrace.RepairsFollowReview | src/domain/session-transition.ts:460-483 | no repair is entered before `reviewing` was |
| SessionTrace.BlockingIsAStutter | src/domain/lifecycle.ts:61-146 | leaving out every block and recovery gives a valid walk along the forward graph from `queued`, current if the whole was, with the same underlying state, phase and repairs |
| SessionTrace.CompletionNeedsTheWholePath | src/domain/lifecycle.ts:42-59 | a completed history bound its plan once, then entered review once and cleanly, then completed under authority, and nothing follows |
| ProofEvidence.LatestBy | src/domain/proof.ts:448-457 | the overwriting loop over the sorted receipts keeps, for every key, the last receipt in sequence order, and has no other keys |
| ProofEvidence.LatestIsNewest | src/domain/proof.ts:448-457 | whatever order receipts arrive in, the kept receipt has its key and no receipt with that key is newer; no key is lost |
| ProofEvidence.LocalProofIsExact | src/domain/proof.ts:387-446 | local proof passes if and only if every declared gate's newest receipt is a clean pass under this plan at the live HEAD |
| ProofEvidence.ProofStatusIsExact | src/domain/proof.ts:387-469 | the exact condition of each of the six statuses, gate by gate from the newest receipts and with the gravest first: corrupt, setup failed, failed, stale, missing, passed |
| ProofEvidence.CiProofIsExact | src/domain/attestation.ts:337-403 | CI proof passes if and only if the plan asks for it and every gate's newest package verifies for the live HEAD and this plan |
| ProofEvidence.CiStatusIsExact | src/domain/attestation.ts:337-403 | the exact condition of every CI status, package by package and with the gravest first |
| ProofEvidence.ReviewStatusIsExact | src/domain/review.ts:283-318 | the exact condition of every review status, from the last stored snapshot, and what a current one reports |
| ProofEvidence.NewestReviewIsLast | src/domain/review.ts:283-318 | over rows in sequence order, the snapshot the guards read is the last one |
| ProofEvidence.BlockingThreadsAreOpen | src/domain/review.ts:248-275 | nothing blocks exactly when every thread is resolved or outdated |
| AuditLedger.VerifyAuditChain | src/domain/audit.ts:91-120 | accepts exactly the linked chains with the expected root; a failure names the least failing event, its first objection, and the root of the good prefix |
| AuditLedger.ObjectionsAreNamed | src/domain/audit.ts:91-133 | an objection to an event names its place in line first, then its link, then its text, then its digest, and there is none exactly when all four are right |
| AuditLedger.NextEventIsExact | src/domain/audit.ts:68-89 | after a linked ledger the next event is made exactly for a safe version, a safe place in line and a root that is a digest, and is linked to that root |
| AuditLedger.AppendKeepsChain | src/adapters/fs/sqlite-store.ts:1973-2018 | appending after checking only the tail keeps a valid chain valid, and never makes an invalid one valid, a ledger with missing rows included |
| AuditLedger.RootCommitsToLedger | src/domain/audit.ts:91-133 | without collisions, two accepted ledgers with one retained root are equal event by event |
| Rows.EqualWatermarkMeansEqualRows | src/adapters/fs/sqlite-store.ts:663-675 | over append-only rows with increasing positive sequences, the watermark is unchanged if and only if the rows are |
| StoreTables.AssertHistoryAuthority | src/adapters/fs/sqlite-store.ts:499-603 | the three passes of the history reader accept exactly the histories whose rows continue, whose ledger is linked, and whose applied events, rows and lifecycle row agree; it returns the decoded history |
| HistoryAuthority.AcceptedIsExact | src/adapters/fs/sqlite-store.ts:499-638 | over distinct transition identifiers the passes accept exactly the sound histories: one path of versions and states with bound requests, which passes through the state the ledger opens with and ends where the session row stands, under a linked ledger with one applied event for every version since, each describing a covered row |
| HistoryAuthority.EveryRowIsDescribed | src/adapters/fs/sqlite-store.ts:549-571 | the checks of the events leave every covered row with an event if and only if no transition is named twice |
| HistoryAuthority.LedgerDeterminesHistory | src/adapters/fs/sqlite-store.ts:499-603 | two histories accepted with one such ledger agree row by row in all the ledger says, and where digests bind in actor and input too |
| HistoryAuthority.WrittenHistoryIsPinned | src/adapters/fs/sqlite-store.ts:499-603 | in every run, whatever replaces the rows of a session while its ledger is kept is refused, or agrees with the rows that were written |
| HistoryAuthority.TwiceNamedIsAccepted | src/adapters/fs/sqlite-store.ts:549-571 | for every codec and every state, a linked ledger that names one transition twice under which the reader accepts any second row |
| StoreInvariant.ReaderAccepts | src/adapters/fs/sqlite-store.ts:499-603 | rows and ledger as the writer leaves them are accepted by the reader, with no corrupt lifecycle row |
| StoreInvariant.DecisionKeeps | src/adapters/fs/sqlite-store.ts:2115-2170 | recording a rejection with its ledger event keeps the session's invariant |
| StoreInvariant.ConflictKeeps | src/adapters/fs/sqlite-store.ts:752-776 | recording an idempotency conflict with its ledger event keeps the session's invariant |
| StoreInvariant.AdmissionKeeps | src/adapters/fs/sqlite-store.ts:859-998 | an admitted transition with its two ledger events keeps the session's invariant |
| StoreInvariant.GateKeeps | src/adapters/fs/sqlite-store.ts:1001-1042 | a recorded gate receipt with its ledger event keeps the session's invariant |
| StoreInvariant.ReviewKeeps | src/adapters/fs/sqlite-store.ts:1067-1172 | an imported review snapshot that advances, with its ledger event, keeps the session's invariant |
| StoreSteps.AdmissionStep | src/adapters/fs/sqlite-store.ts:859-998 | an admitted transition keeps the invariant of every session of the store, and only grows tables |
| StoreSteps.StartStep | src/adapters/fs/sqlite-store.ts:711-737 | starting a session keeps the invariant of the store and brings the stored projection up to date |
| StoreRuns.NextKeeps | src/adapters/fs/sqlite-store.ts:711-1172 | every transaction, committed or thrown, keeps the store invariant and only grows what is known about each session |
| StoreRuns.WriterReaderAgreement | src/adapters/fs/sqlite-store.ts:499-603 | after any run the reader accepts every session, no lifecycle row is corrupt, the stored projection is the recomputed one, and every row has its ledger event: version = transitions = applied events, decisions + conflicts = guard events, ledger length = 1 + all rows |
| StoreRuns.ProjectionListsOpenSessions | src/adapters/fs/sqlite-store.ts:1901-1909 | after any run the projection lists exactly the sessions that were started and have not completed, and names one as active exactly when it is the only one |
| EvidenceTables.EvidenceIsInItsPlace | src/adapters/fs/sqlite-store.ts:1186-1207 | after any run every receipt and package was produced while verifying, every snapshot under review or while a person was awaited, and all of it for the plan the session has |
| StoreRuns.RunGrows | src/adapters/fs/sqlite-store.ts:66-106 | between any two points of a run every table of a session is a prefix of its later self and a bound plan stays bound |
| StoreRuns.HistoryIsCurrent | src/adapters/fs/sqlite-store.ts:795-847 | for every interleaving, a transaction that reaches the guards sees the history that was read if and only if the request expects the version that was read |
| StoreRuns.ReceiptsAreCurrent | src/adapters/fs/sqlite-store.ts:663-675 | for every interleaving and whatever version is expected, a transaction that reaches the guards under a watermark sees the very receipts read after it |
| StoreRuns.ContextIsCurrent | src/services/session-service.ts:312-377 | over four separate reads, history, phase, plan and all three receipt tables are those inside the transaction when the request expects the version read, and the history only then |
| Store.SqliteStore.constructor | src/adapters/fs/sqlite-store.ts:1450-1460 | a new store is empty and valid |
| Store.SqliteStore.InsertTaskSession | src/adapters/fs/sqlite-store.ts:711-737 | commits the new session, its genesis event and the projection, or nothing |
| Store.SqliteStore.Redeliver | src/adapters/fs/sqlite-store.ts:745-776 | a key already used answers the same request again, answers a known conflict again, or records one |
| Store.SqliteStore.ApplySessionTransition | src/adapters/fs/sqlite-store.ts:739-999 | the statement-by-statement transaction computes the specified next tables and outcome, keeps a valid store valid, and changes nothing when it throws |
| Store.SqliteStore.AppendGateReceipt | src/adapters/fs/sqlite-store.ts:1001-1042 | appends the receipt and its event only in the state, version and plan it was produced against, and keeps the store valid |
| Store.SqliteStore.AppendSignedGateReceipt | src/adapters/fs/sqlite-store.ts:1096-1178 | the same package again changes nothing, other content under its name conflicts, and a failed promotion rolls back |
| Store.SqliteStore.CheckReviewAdvances | src/adapters/fs/sqlite-store.ts:1209-1235 | the loop lets a snapshot in exactly when it names the same pull request and was observed no earlier than every stored one |
| Store.SqliteStore.AppendSignedReviewReceipt | src/adapters/fs/sqlite-store.ts:1067-1178 | as for gates, and only for a snapshot that advances |
| EvidenceImports.GateAppendIsExact | src/adapters/fs/sqlite-store.ts:1001-1042 | after any run a gate receipt conflicts exactly when it does not come in time, and otherwise becomes the next row or a rejected write |
| EvidenceImports.SignedGateImportIsExact | src/adapters/fs/sqlite-store.ts:1096-1178 | after any run, and whatever rows the table holds: the package on record is answered with its row, another under its name or out of time conflicts, a new one in time becomes the next row if its file was put in place |
| EvidenceImports.ReviewImportIsExact | src/adapters/fs/sqlite-store.ts:1096-1235 | the same of a snapshot, which must moreover be of the pull request of the last one and observed no earlier |
| EvidenceTables.SignedGateReimportIsIdle | src/adapters/fs/sqlite-store.ts:1117-1132 | importing a package again after any further run gives its first row and writes nothing |
| EvidenceTables.ReviewReimportIsIdle | src/adapters/fs/sqlite-store.ts:1117-1132 | so does importing a snapshot again, even one overtaken since |
| Store.PhaseFromAuthority | src/adapters/fs/sqlite-store.ts:792-793 | the phase derived from the reader's answer is the phase of the stored rows |
| Idempotency.FirstAnswerIsRecorded | src/adapters/fs/sqlite-store.ts:745-998 | whatever a delivery returns for an existing session is recorded as the answer to that request |
| Idempotency.AnsweredIsReplayed | src/adapters/fs/sqlite-store.ts:745-776 | delivering an answered request returns the recorded answer and writes nothing |
| Idempotency.RedeliveryReturnsFirstAnswer | src/adapters/fs/sqlite-store.ts:745-776 | after any further run, with any guards or watermark, redelivery returns the first answer and leaves the store as it was, for applied, rejected, replayed and conflicting requests alike |
| Idempotency.DifferentRequestConflicts | src/adapters/fs/sqlite-store.ts:745-776 | after any run, a request other than the one that owns its key is refused by name of the owner's digest, the first time and every time, and only the conflicts and the ledger change |
| Idempotency.AppliedAnswersAreRows | src/adapters/fs/sqlite-store.ts:859-998 | after any run the applied answers report the stored transitions one by one, every other answer is a first refusal, and every conflict names the owner of its key |
| Idempotency.LedgerNamesEverything | src/adapters/fs/sqlite-store.ts:1973-2018 | after any run the ledger names every receipt, package and snapshot in the order of its table, and its guard events are the decisions and conflicts with key, digest and verdict |
| FirstAnswers.FirstAnswerIsExact | src/adapters/fs/sqlite-store.ts:778-998 | after any run, a call prepared from the rows as they stand under a new key is told in this order: the current version, that the graph is not open, that the warrant is missing, or the transition it made |
| FirstAnswers.ChangedEvidenceIsThrown | src/adapters/fs/sqlite-store.ts:836-846 | evidence that changed after it was read makes the delivery throw, and nothing is recorded |
| FirstAnswers.DamageIsReported | src/adapters/fs/sqlite-store.ts:745-793 | of any tables whatever: a delivery for a session that is missing, whose row does not stand or whose history is not sound is answered so and writes nothing, and no recorded answer is given out from an unsound history |
| FirstAnswers.DamageTakesNoEvidence | src/adapters/fs/sqlite-store.ts:1180-1202 | of any tables whatever: no evidence is appended to an unsound history |
| TableKeys.KeysAreHeld | src/adapters/fs/sqlite-store.ts:1529-1671 | after any run no event, receipt or transition identifier is given twice in its whole table, nor a version of a task to two transitions |
| SessionService.ReviewRepairBasisIsStable | src/services/session-service.ts:1594-1610 | the basis of a review repair is the newest snapshot imported up to the entry; later imports, blocks and recoveries do not move it |
| SessionService.LatestFailureIsExact | src/services/session-service.ts:1546-1556 | a commit to resume from exists if and only if some gate ran, on one commit, and failed |
| SessionService.InvalidatedRunFailsWithoutBasis | src/domain/proof.ts:426-432 | an invalidated run makes the evidence `failed` and is yet no commit to resume from |
| SessionService.RepairLeavesExactly | src/services/session-service.ts:1594-1614 | a repair opened by failed proof may be left if and only if, from the plan's clean branch, something was committed since the newest gate that failed on one commit |
| ServiceRuns.PreparationIsExact | src/services/session-service.ts:312-377 | for every prepared call that reaches the guards, with or without a watermark: the history read is the history inside the transaction if and only if the session was found and the request expects the version found, and the call is then the one prepared in one instant from the rows the transaction sees |
| ServiceRuns.PlanRequestIsExact | src/services/session-service.ts:328-342 | where a plan is to be bound, the call is that instant one if and only if the request expects the version found, and carries the plan only then |
| ServiceRuns.UnguardedVerdictIsExact | src/services/session-service.ts:343-377 | where the target needs no guard context, reading too early does not change the verdict |
| TransitionService.Service.Prepare | src/services/session-service.ts:312-365 | reading the lifecycle, the key, the watermark and the evidence, with any transactions of other callers in between, gives a call prepared from reads in that order |
| TransitionService.Service.TransitionSession | src/services/session-service.ts:307-377 | the whole operation ends in the store's answer to such a call, so it is a step of a serviced run |
| ServedTraces.PreparedContextIsDated | src/services/session-service.ts:312-377 | whatever version is expected, a prepared context never claims a review that has not begun, and shows the guards the very plan the call binds |
| ServedTraces.AdmittedContextIsFresh | src/services/session-service.ts:1538-1627 | when the request expects the version read, an admitted call's context states the phase and the repairs used as they are inside the transaction |
| ServedTraces.TraceMatchesStore | src/adapters/fs/sqlite-store.ts:859-998 | the transitions a run applied are the stored rows, in order, and the stored plan is the one bound by `framed -> proof_ready` |
| ServedTraces.ServicedHistoryIsValid | src/services/session-service.ts:307-377 | every history a serviced run leaves in the store is a valid trace, allowed step by step by the graph and the guards; where requests expect the version read, under contexts still true at commit |
| SessionGuarantees.StoredRepairBudget | src/adapters/fs/sqlite-store.ts:441-444 | every stored repair entry comes after a first review, and where requests expect the version read there are at most three, counted as the store counts them |
| SessionGuarantees.StoredPhaseIsOneWay | src/domain/lifecycle.ts:148-156 | a stored session that has been in review, and the state it is blocked from, stay post-PR |
| SessionGuarantees.StoredHistoryIsForwardPath | src/domain/lifecycle.ts:61-146 | a stored history without blocks and recoveries is a forward walk from `queued` to the current state |
| SessionGuarantees.CompletedSessionWalkedThePath | src/domain/session-transition.ts:151-253 | a stored completed session has one plan row, then one clean review entry, then a last row completing it under authority, and holds the plan bound in that first row |
| StoredEvidence.ReviewEntryRestsOnStoredProof | src/domain/session-transition.ts:433-458 | whatever version is expected, inside the transaction that first enters review, at one observed HEAD, every declared gate's newest receipt and newest CI package pass, and the request's clean pre-PR review names that HEAD |
| StoredEvidence.CompletionRestsOnStoredEvidence | src/services/session-service.ts:343-377 | whatever version is expected, inside the completing transaction, at one observed HEAD, every declared gate's newest receipt and newest CI package pass, and the last imported review approves that commit by a person, blocks nothing and saw the merge |
| Admissions.AdmissionIsWritten | src/adapters/fs/sqlite-store.ts:859-998 | under fresh identifiers, whatever the store judges admissible it also writes, row and both ledger events |
| PlannedTransitions.PlannedIsAdmitted | src/services/session-service.ts:1175-1189 | the call prepared from the rows the planner saw, with empty input, which carries no plan to bind, is admitted if and only if its target is the planner's executable candidate |
| PlannedTransitions.PlannedIsWritten | src/services/session-service.ts:1175-1189 | with an unused key and fresh identifiers, the planner's executable candidate is applied and its row written; any other target leaves the history as it was |
| StrandedRepairs.StrandedRepairStays | src/services/session-service.ts:1546-1556 | in every run whose requests expect the version read, a repair opened from `verifying` with no gate that failed on one commit stays in `repairing`, or blocked from it, for ever |
| StrandedRepairs.StrandingIsProposed | src/domain/session-transition.ts:695-894 | after review, with failed proof and budget left, the planner proposes `repairing` whether or not a gate failed on one commit |
| StrandedRepairs.EntryStrands | src/services/session-service.ts:1594-1614 | taking that step with no such gate leaves the session in the state above |
| Courses.Advance | src/services/session-service.ts:307-377 | a prepared call, however early it was prepared, that is admissible on the rows a serviced run ends with extends the run by its transition, under fresh identifiers and an unused key |
| StaleRepairs.StaleRepairIsAdmitted | src/services/session-service.ts:343-377 | a request expecting the present version of a session that is verifying again with no new receipt enters a repair if and only if the view that was read allowed one, however many repairs there have been since |
| StaleRepairs.StaleExitIsAdmitted | src/services/session-service.ts:1594-1614 | a request expecting the present version of a session in repair leaves it if and only if something was committed since the basis of the repair its lifecycle was read in |
| StaleRepairs.StaleReadsOverdraw | src/domain/session-transition.ts:194-209 | any number of callers who read one failed proof together, each expecting two versions more than the one before, each enter a repair: the serviced run ends with that many repairs more |
| StaleRepairs.StaleExitLeaves | src/services/session-service.ts:1594-1614 | a serviced run that stranded a session is extended by a caller whose lifecycle was read in an earlier repair to one that did not |
| Journeys.CompletionIsServed | src/services/session-service.ts:307-377 | a serviced run from the empty store completes, with every request expecting the version read |
| Journeys.BudgetIsOverdrawn | src/domain/lifecycle.ts:27-34 | for every n, a serviced run from the empty store stores n + 1 repair entries |
| Journeys.StrandingIsServed | src/domain/proof.ts:426-432 | a serviced run from the empty store, with every request expecting the version read, strands a session by an invalidated gate run |
| Journeys.StrandedIsLeft | src/services/session-service.ts:328-332 | and one stale caller takes it out again |
| StoredEvidence.ReviewsAreInOrder | src/adapters/fs/sqlite-store.ts:1209-1235 | in every run a session's snapshots name one pull request, with observation times and versions that never decrease in sequence order, so the highest sequence is newest |
| StoredEvidence.RepairBasisIsAuthorisingSnapshot | src/services/session-service.ts:1594-1610 | over any two stored states, a review repair keeps the HEAD of the snapshot that was newest when it was entered |
| StoredEvidence.RepairBasisOverRuns | src/services/session-service.ts:1594-1610 | over runs, from the transaction that entered a review repair until the next repair entry, the basis is the snapshot newest inside that transaction |
| Warrants.InstantIsWarranted | src/domain/session-transition.ts:151-458 | for every session, request and checkout: what is prepared from the rows as they stand is admitted if and only if it is warranted, a table over stored rows, request and checkout that names no guard and no context |
| Warrants.EveryTransitionIsWarranted | src/services/session-service.ts:312-377 | in every prompted serviced run each applied transition was warranted inside its own transaction; entering `verifying` from `implementing`, a clean HEAD on the plan branch with a committed diff from its basis |
| Warrants.WarrantedIsApplied | src/services/session-service.ts:312-377 | a warranted transition the graph leaves open extends the run |
| Warrants.StartIsExact | src/services/session-service.ts:1558-1592 | an implementation starts from the commit of the review that reopened it, else of the newest real failure, else of the plan baseline, read from the stored rows |
| Warrants.RepairStartIsExact | src/services/session-service.ts:1594-1610 | a repair starts from the newest real failure, or from the last snapshot imported when a review opened it, read from the stored rows |
| StaleReads.StaleReadIsMisprepared | src/services/session-service.ts:328-332 | one run and two preparations, one reading an older version and one reading before the session exists, whose plan request reaches the guards without its plan and is rejected, where the instant one would be admitted |
| CommitProtocol.Connection.ExecCommit | src/adapters/fs/gaap-state.ts:206-209 | COMMIT makes everything staged durable or nothing, whatever reply arrives |
| CommitProtocol.GaapState.Classify | src/adapters/fs/gaap-state.ts:212-232 | the error a failed transaction ends in, from rollback and readback |
| CommitProtocol.GaapState.Mutate | src/adapters/fs/gaap-state.ts:188-242 | the transaction is durable if and only if it was fenced against the root it expected, its operation succeeded and COMMIT landed, as revision expected + 1 and nowhere else, so at most one per expected revision; it returns if and only if moreover the reply came, nothing failed after it and closing succeeded; a committed error means durable and an ordinary error not; only the uncertain error leaves it open, and for a durable commit only when the reply and the readback were lost or another process committed in between; roots stay numbered 0, 1, 2, ... |
| CommitProtocol.StatePath.Initialize | src/adapters/fs/gaap-state.ts:69-134 | the file is created if and only if none was there, and is committed to if and only if COMMIT landed; an existing or just claimed file is left alone; a file to which this call committed is never unlinked, nor is another's; a plain success means a durable registration with its reply, a reported one is durable, and a durable one is reported as an ordinary error exactly when closing fails |
| LaunchOnce.StepKeeps | src/services/gaap-executor.ts:233-471 | every step of every process keeps the invariant of the launch and of the evidence |
| LaunchOnce.LaunchedOnce | src/services/gaap-executor.ts:233-296 | over any runners, crashes and restarts, and dispatches that end before they spawn, at most one executor is spawned, it is the one the launch row names, and that row's output directory exists |
| LaunchOnce.LaunchIsReachable | src/services/gaap-executor.ts:233-296 | one runner on its own does spawn its executor |
| LaunchOnce.SpawnFollowsLaunch | src/services/gaap-executor.ts:284-296 | a spawn finds its launch row durable and nothing spawned before |
| LaunchOnce.RunRetains | src/services/gaap-executor.ts:233-471 | a launch row, its directory, observations, receipts, accepted rows, blobs and spawns are never taken back, and with nobody about to spawn the spawns are final |
| LaunchOnce.NoLostUpdate | src/services/gaap-executor.ts:233-471 | whatever commits finds the very database it read: nothing another process wrote in between is overwritten |
| LaunchOnce.AdmittedTogether | src/services/gaap-executor.ts:428-471 | a journal receipt, its accepted row and its blobs exist together or not at all, and trace back to a successful observation of the one spawned executor |
| LaunchOnce.StrandedLaunchStays | src/services/gaap-executor.ts:233-240 | once launched with nobody about to spawn, the Attempt never spawns again |
| LaunchOnce.Host.CommitLaunch | src/services/gaap-executor.ts:251-283 | an ordinary launch error gives the output directory back; a committed or uncertain one keeps it |
| LaunchOnce.Host.RetainObservation | src/services/gaap-executor.ts:299-327 | what the transport delivered, well or badly, is retained exactly when nobody committed since the revision was read and the disk took it; the outcome is the one reported for that |
| LaunchOnce.Host.AdmitOutput | src/services/gaap-executor.ts:339-495 | exactly what an admission reports: rejected unverified or conflicting, already admitted with the same evidence, and otherwise the report of a transaction that lands exactly when nobody committed since the inspection and journal and disk take it; a return or a committed error has its source accepted |
| LaunchOnce.Host.RunGaapExecutor | src/services/gaap-executor.ts:233-337 | one runner among the others, with its result exactly determined: it is refused exactly when the Attempt had started when it read the root or its directory was taken, its launch lands exactly when nobody committed since that read and journal and disk take it, and after the spawn the observation, the transport and the admission each decide as stated for them; the run grows by its own steps in order, every outcome it meets is one `Mutate` may report, and what it reports about its launch and its spawn is true |
| JsonReader.IsWellFormed | src/domain/gaap-json.ts:161-170 | the index loop accepts exactly the texts whose surrogates are paired |
| JsonReader.JsonReader.String | src/domain/gaap-json.ts:99-116 | finding the quote and decoding the slice reads exactly the specified string, or refuses |
| JsonReader.JsonReader.Number | src/domain/gaap-json.ts:67-92 | reads exactly the specified integer token, or refuses |
| JsonReader.JsonReader.Value | src/domain/gaap-json.ts:47-65 | reads exactly the specified value, offset and count, or refuses |
| JsonReader.JsonReader.ArrayItems | src/domain/gaap-json.ts:151-157 | the loop over items agrees with the specification |
| JsonReader.JsonReader.ObjectMembers | src/domain/gaap-json.ts:128-140 | the loop over members agrees with the specification, refusing a repeated key |
| JsonReader.ParseGaapJson | src/domain/gaap-json.ts:12-29 | the cursor parser computes the specified result on every text |
| JsonGrammar.RenderingIsParsed | src/domain/gaap-json.ts:47-159 | every rendering of a good syntax tree, with any white space and escapes, is read back as the tree's value |
| JsonGrammar.AcceptedHasTree | src/domain/gaap-json.ts:47-159 | every accepted text is the rendering of a good syntax tree of the parsed value |
| JsonGrammar.AcceptsExactlyGoodTrees | src/domain/gaap-json.ts:12-159 | a text is accepted as a value if and only if it renders a tree with unique keys, paired surrogates, safe integers without minus zero, depth at most 64 and at most 1,000,000 values (sections 2.1 to 2.3 of RFC 7493) |
| JsonPrinter.SortedKeysAreTheKeys | src/domain/gaap-json.ts:205-206 | the printed key order holds every key once, by code units (section 3.2.3 of RFC 8785) |
| JsonPrinter.PrintedIsParsed | src/domain/gaap-json.ts:173-220 | whatever is printed is read back as the very tree |
| JsonPrinter.ParsedIsPrintable | src/domain/gaap-json.ts:173-220 | whatever is accepted is within the printer's limits |
| JsonPrinter.CanonicalFormIsFixed | src/domain/gaap-json.ts:172-220 | canonicalising what was parsed is a fixed point (section 3.2 of RFC 8785) |
| JsonPrinter.CanonicalIsInjective | src/domain/gaap-json.ts:172-220 | two trees share a canonical text only if they are equal |
| JsonCanonical.CanonicalIsShortest | src/domain/gaap-json.ts:172-220 | no text that is read as the value, however written, is shorter than its canonical text |
| JsonCanonical.CanonicalFormIsUnique | src/domain/gaap-json.ts:172-220 | a rendering of the value without white space, with its keys by code units, every character in its shortest form and no capital in an escape is the canonical text, and the canonical text is one |
| JsonCanonical.CanonicalEscapes | src/domain/gaap-json.ts:180-182 | every escape in a canonical text that spells a number spells `00` and two lower-case hexadecimal digits (section 3.2.2.2 of RFC 8785) |
| JsonEncoder.SortKeys | src/domain/gaap-json.ts:205-206 | sorting the keys by code units |
| JsonEncoder.Encoder.Encode | src/domain/gaap-json.ts:176-218 | the recursive printer with its running count prints the canonical rendering exactly when the tree fits the limits that are left |
| JsonEncoder.CanonicalGaapJson | src/domain/gaap-json.ts:173-220 | the printer computes the canonical text, or refuses, on every tree |
| GateRunner.RunGateProcess | src/adapters/process/gate-runner.ts:220-389 | exactly which flags lead to each of the six results; a pass is exit code 0 with no termination, spawn error or lost output, and a process never reports `setup_failed` or `invalidated` |
| GateRunner.RunGateWithSetup | src/adapters/process/gate-runner.ts:93-126 | the steps that ran are a prefix of the declared ones, all but the last passed and left the repository alone, and the gate ran exactly when all of them did |
| GateRunner.InvalidatedIsExact | src/adapters/process/gate-runner.ts:128-147 | a run stands exactly when the repository was clean at the starting HEAD before its first step and at every observation it made |
| GateRunner.RecordedResultIsExact | src/adapters/process/gate-runner.ts:93-218 | what is recorded, from the processes and observations alone: passed when all passed, setup failed when a setup step was the first that did not, else the result of the gate, with the repository left alone so far, and otherwise invalidated |
| GateRunner.ViolationsAreExact | src/domain/proof.ts:527-573 | the validator finds nothing if and only if the record describes the declared setup up to the first step that did not pass, as its result requires |
| GateRunner.RunsSatisfyValidator | src/adapters/process/gate-runner.ts:132-218 | for every declared setup, outcome and observation the recorded steps with the classified result satisfy the validator, and the `execution_error` fallback is unreachable |
| GateRunner.SigningKeepsSetup | src/domain/attestation.ts:251-300 | relabelling by the signer keeps the record valid; a signed pass means a succeeded job on a clean pass, and exit status 0 means passed; signing is refused exactly for a succeeded job without a clean pass |
| ProcessSupervisor.Supervisor.Finish | src/adapters/process/gaap-runner.ts:134-163 | the result is delivered once, with a cleanup error first, then the first cause, then undelivered input, then a bad exit |
| ProcessSupervisor.Supervisor.Handle | src/adapters/process/gaap-runner.ts:174-231 | what each event adds to output, causes, input and exit; a delivered result never changes |
| ProcessSupervisor.Supervisor.Advance | src/adapters/process/gaap-runner.ts:134-231 | after any events the supervisor is what those events add up to |
| ProcessSupervisor.RunGaapProcess | src/adapters/process/gaap-runner.ts:38-235 | under any order of events one result, on the first event that ends the run; retained output is what arrived, cut at the limits; cleanup failed if and only if the drain deadline passed or a signal failed with no exit settling it since; otherwise the first failure cause is kept; `ok` means full input, exit 0, no signal, no cause of failure and nothing dropped |
| SupervisorCauses.StatusIsExact | src/adapters/process/gaap-runner.ts:38-235 | the status read off the events: cleanup failed when the drain deadline ended the run or a signal missed the group with no exit since; else the first failure, where output fails by exceeding its limit and only the first deadline counts; else undelivered input, else an exit that was not clean |
| EffectChain.VerifyGaapEffects | src/domain/gaap-effects.ts:13-158 | the one-pass loop accepts exactly the statements whose pairs all hold from the subject reached so far |
| EffectContract.AcceptanceIsExact | src/domain/gaap-effects.ts:13-332 | a statement is accepted if and only if it meets the contract, clause by clause over its own fields: every pair in ledger order, in scope and bound to its decision, drift denied for its own reason, outcomes with their evidence, one execution after its gates, mutations chained, usage covered |
| EffectChain.EffectsMatchLedger | src/domain/gaap-effects.ts:17-47 | acceptance matches the ledger's effects and the signed pairs one to one |
| EffectChain.OnlyKnownMutationsMoveTheSubject | src/domain/gaap-effects.ts:112-127 | the chain runs from the initial to the resulting subject and moves only by attempted mutations with a known outcome |
| EffectChain.AttemptsRunOnceAfterTheirGates | src/domain/gaap-effects.ts:64-111 | every attempted effect has exactly one execution, after every required gate, with no refusing gate; every other effect has none |
| DerString.EncodedIsDecoded | src/adapters/crypto/sigstore.ts:238-240 | UTF-8 encoding is undone by decoding and is always well formed |
| DerString.LosslessIsValid | src/adapters/crypto/sigstore.ts:238-240 | a decoding with replacement encodes back to the same bytes if and only if they were well-formed UTF-8 |
| DerString.OctetsAreShortest | src/adapters/crypto/sigstore.ts:219-231 | length octets without a leading zero are the shortest that hold their value |
| DerString.EncodedDerIsDecoded | src/adapters/crypto/sigstore.ts:208-241 | every text whose length fits four octets survives encoding and decoding |
| DerString.DecodedDerIsEncoded | src/adapters/crypto/sigstore.ts:208-241 | the decoder returns a text if and only if the input is that text's encoding: tag, unique shortest definite length, content (section 10.1 of ITU-T X.690) |
| DerString.AcceptsShortestValidOnly | src/adapters/crypto/sigstore.ts:208-241 | acceptance, without mentioning the text: tag, shortest length of at most four octets, exactly that many well-formed bytes |
| DerString.DecodeDerUtf8String | src/adapters/crypto/sigstore.ts:208-241 | the loop over length octets computes the specified result |

## Left out

- Command handlers, Markdown, configuration, Git, GitHub and Sigstore calls, SQL text, schema creation and migration: plumbing, or inputs of the model.
- Sessions whose ledger starts with `audit_activated`: the reader's rule for them is modelled and characterised, but runs start from an empty store, so the writer's theorems are about sessions started by this version.
- The columns of an audit row repeated outside its JSON, and the request's own validation: the model stores the event value and a request that was already validated.
- Package files under several importers: the promoted file is removed after the transaction ends (src/services/signed-receipt-import.ts:522-527), so the model only says that a failed promotion rolls the rows back.
- Sharing of subtrees in printed values, own-property descriptors and prototypes: printed values are trees, on which the printer's `seen` set never refuses.
- Non-integer numbers, the byte limit and UTF-8 decoding in front of the JSON reader, and a negative zero given to the printer: the model reads decoded text in the integer mode and prints integers.
- The execution journal and mapping of `threadloop-contracts`: an append that may fail.
- Inode reuse: another file at the state path is assumed to have another identity, and random tokens are assumed distinct.
- Parent binding, operation names, metadata, approvals and scopes of effects, and the evidence reference digests: field rules without a bearing on the chain.
- Wall-clock time, leases and process groups: nondeterministic events.
- SessionTransition.ReadFindings: reads the findings array only; the fields around it are a function, `ReadPrePrReviewEvidence`.
- LaunchOnce.Host.RunGaapExecutor: one Attempt per state file, as registration creates it.
- CommitProtocol.GaapState.Mutate: compares roots as values where the code compares their canonical texts.
- DerString.DecodeDerUtf8String: returns scalar values where the code returns a UTF-16 string.

/**
 * The tables of src/adapters/fs/sqlite-store.ts and the history reader that every write transaction runs first.
 * Tables are append-only sequences except `tasks`, `sessions` and the stored projection of open sessions.
 */
module StoreTables {
  import opened Options
  import opened JsonValues
  import opened Lifecycle
  import opened SessionTransition
  import opened ProofEvidence
  import opened AuditLedger
  import opened Rows

  datatype Actor = Cli | Agent

  datatype TransitionRequest = TransitionRequest(
    sessionId: string, target: TaskStatus, expectedVersion: int, actor: Actor, input: Json)

  datatype TaskRow = TaskRow(status: TaskStatus, stateVersion: int, blockedFrom: Option<TaskStatus>)

  datatype SessionRow = SessionRow(taskId: string, endedAt: Option<int>)

  datatype Transition = Transition(
    id: string, taskId: string, source: TaskStatus, target: TaskStatus, fromVersion: int, toVersion: int,
    actor: Actor, inputJson: string, requestSha256: string, createdAt: int)

  datatype FailureCode =
    | SessionNotFound
    | StateCorrupted
    | StateVersionConflict(actual: int)
    | TransitionNotAllowed(code: DecisionCode)
    | TransitionGuardFailed(failure: string)
    | IdempotencyConflict(existingSha256: string)

  datatype TransitionResult =
    | Succeeded(transitionId: string, source: TaskStatus, target: TaskStatus, fromVersion: int, toVersion: int,
                blockedFrom: Option<TaskStatus>, endedAt: Option<int>)
    | Refusal(error: FailureCode)

  datatype Decision = Decision(
    key: string, requestJson: string, requestSha256: string, applied: bool, result: TransitionResult)

  datatype Conflict = Conflict(key: string, requestJson: string, requestSha256: string, result: TransitionResult)

  datatype Tables = Tables(
    tasks: map<string, TaskRow>,
    sessions: map<string, SessionRow>,
    transitions: seq<Row<Transition>>,
    decisions: seq<Row<Decision>>,
    conflicts: seq<Row<Conflict>>,
    plans: map<string, BoundPlan>,
    gates: seq<Row<GateReceipt>>,
    signedGates: seq<Row<SignedGateReceipt>>,
    reviews: seq<Row<ReviewReceipt>>,
    audit: seq<Row<StoredEvent>>,
    activeSessions: set<(string, string)>,
    activeState: Option<(string, string)>)

  const EMPTY_TABLES := Tables(map[], map[], [], [], [], map[], [], [], [], [], {}, None)

  /** JSON printing and parsing of requests and inputs, and the digest. */
  datatype Codec = Codec(
    hashing: Hashing,
    printRequest: TransitionRequest -> string,
    printInput: Json -> string,
    parseInput: string -> Option<Json>)

  /** Reading back a printed input returns it, and digests are 64 lowercase hexadecimal characters. */
  ghost predicate Lawful(codec: Codec) {
    && (forall input :: codec.parseInput(codec.printInput(input)) == Some(input))
    && (forall text :: IsSha256(codec.hashing.digest(text)))
  }

  /** Everything the store holds about one session. */
  datatype View = View(
    taskId: string,
    task: TaskRow,
    endedAt: Option<int>,
    transitions: seq<Transition>,
    decisions: seq<Decision>,
    conflicts: seq<Conflict>,
    plan: Option<BoundPlan>,
    gates: seq<GateReceipt>,
    signedGates: seq<SignedGateReceipt>,
    reviews: seq<ReviewReceipt>,
    audit: seq<StoredEvent>)

  /** The join of `sessions` and `tasks` has a row for this session. */
  predicate Known(db: Tables, session: string) {
    session in db.sessions && db.sessions[session].taskId in db.tasks
  }

  function ViewOf(db: Tables, session: string): View
    requires Known(db, session)
  {
    View(
      db.sessions[session].taskId, db.tasks[db.sessions[session].taskId], db.sessions[session].endedAt,
      Of(db.transitions, session), Of(db.decisions, session), Of(db.conflicts, session),
      if session in db.plans then Some(db.plans[session]) else None,
      Of(db.gates, session), Of(db.signedGates, session), Of(db.reviews, session), Of(db.audit, session))
  }

  function ToVersion(row: Transition): int { row.toVersion }

  function SequenceOf(event: StoredEvent): int { event.value.sequence }

  // ----- the evidence watermark

  datatype Watermark = Watermark(gate: int, signedGate: int, review: int)

  function ReadWatermark(v: View): Watermark {
    Watermark(
      MaxKey(v.gates, GateSequence), MaxKey(v.signedGates, SignedGateSequence), MaxKey(v.reviews, ReviewSequence))
  }

  // ----- row corruption

  predicate RowCorrupt(v: View) {
    || !IsSafeInteger(v.task.stateVersion)
    || v.task.stateVersion < 0
    || (v.task.status == Blocked && (v.task.blockedFrom.None? || v.task.blockedFrom.value in {Blocked, Completed}))
    || (v.task.status != Blocked && v.task.blockedFrom.Some?)
    || ((v.task.status == Completed) != v.endedAt.Some?)
  }

  // ----- the history reader

  datatype HistoryEntry = HistoryEntry(
    id: string, source: TaskStatus, target: TaskStatus, fromVersion: int, input: Json)

  datatype Authority = Authority(history: seq<HistoryEntry>, genesisState: TaskStatus)

  /** The stored request still digests to what was recorded, and the stored input is canonical. */
  predicate RequestBound(codec: Codec, session: string, row: Transition) {
    var input := codec.parseInput(row.inputJson);
    && input.Some?
    && codec.hashing.digest(
         codec.printRequest(TransitionRequest(session, row.target, row.fromVersion, row.actor, input.value)))
       == row.requestSha256
    && codec.printInput(input.value) == row.inputJson
  }

  predicate RowContinues(codec: Codec, session: string, rows: seq<Transition>, i: nat)
    requires i < |rows|
  {
    && IsSafeInteger(rows[i].fromVersion)
    && rows[i].fromVersion >= 0
    && rows[i].toVersion == rows[i].fromVersion + 1
    && (i > 0 ==> rows[i].fromVersion == rows[i - 1].toVersion && rows[i].source == rows[i - 1].target)
    && RequestBound(codec, session, rows[i])
  }

  lemma ContinuingRowParses(codec: Codec, session: string, rows: seq<Transition>, i: nat)
    requires i < |rows| && RowContinues(codec, session, rows, i)
    ensures codec.parseInput(rows[i].inputJson).Some?
  {
  }

  function EntryOf(codec: Codec, row: Transition): HistoryEntry
    requires codec.parseInput(row.inputJson).Some?
  {
    HistoryEntry(row.id, row.source, row.target, row.fromVersion, codec.parseInput(row.inputJson).value)
  }

  function ToHistory(codec: Codec, rows: seq<Transition>): seq<HistoryEntry>
    requires forall i :: 0 <= i < |rows| ==> codec.parseInput(rows[i].inputJson).Some?
  {
    seq(|rows|, i requires 0 <= i < |rows| => EntryOf(codec, rows[i]))
  }

  /** The version from which the ledger covers the history, and the state it vouches for there. */
  function Genesis(events: seq<StoredEvent>): Option<(int, TaskStatus)> {
    if events == [] then None
    else
      match events[0].value.payload
      case SessionStarted(_, state) => Some((0, state))
      case AuditActivated(true, state) => Some((events[0].value.stateVersion, state))
      case _ => None
  }

  function AppliedEvents(events: seq<StoredEvent>): seq<AuditEvent> {
    if events == [] then []
    else
      var last := events[|events| - 1].value;
      AppliedEvents(events[..|events| - 1]) + if last.payload.TransitionApplied? then [last] else []
  }

  function FromFloor(rows: seq<Transition>, floor: int): seq<Transition> {
    if rows == [] then []
    else
      var last := rows[|rows| - 1];
      FromFloor(rows[..|rows| - 1], floor) + if last.fromVersion >= floor then [last] else []
  }

  /** `new Map(rows.map((row) => [row.id, row])).get(id)`: the last row with that identifier. */
  function LastWithId(rows: seq<Transition>, id: string): Option<Transition> {
    if rows == [] then None
    else if rows[|rows| - 1].id == id then Some(rows[|rows| - 1])
    else LastWithId(rows[..|rows| - 1], id)
  }

  predicate EventMatchesRow(event: AuditEvent, row: Transition) {
    && event.payload.TransitionApplied?
    && event.stateVersion == row.toVersion
    && event.payload.requestSha256 == row.requestSha256
    && event.payload.fromState == row.source
    && event.payload.toState == row.target
    && event.payload.fromStateVersion == row.fromVersion
    && event.payload.toStateVersion == row.toVersion
  }

  predicate EventHasRow(rows: seq<Transition>, event: AuditEvent)
    requires event.payload.TransitionApplied?
  {
    var row := LastWithId(rows, event.payload.transitionId);
    row.Some? && EventMatchesRow(event, row.value)
  }

  lemma {:induction false} AppliedEventsAreApplied(events: seq<StoredEvent>)
    ensures forall i :: 0 <= i < |AppliedEvents(events)| ==> AppliedEvents(events)[i].payload.TransitionApplied?
    ensures |AppliedEvents(events)| <= |events|
  {
    if events != [] { AppliedEventsAreApplied(events[..|events| - 1]); }
  }

  /** Every applied event names a covered row that it describes exactly. */
  ghost predicate EventsHaveRows(rows: seq<Transition>, events: seq<AuditEvent>) {
    forall i :: 0 <= i < |events| ==> events[i].payload.TransitionApplied? && EventHasRow(rows, events[i])
  }

  /** The current lifecycle row is where the history ends. */
  predicate ProjectionMatches(v: View, rows: seq<Transition>, floor: int, genesisState: TaskStatus) {
    if rows == [] then v.task.stateVersion == floor && v.task.status == genesisState
    else
      var latest := rows[|rows| - 1];
      && latest.taskId == v.taskId
      && latest.target == v.task.status
      && latest.toVersion == v.task.stateVersion
      && (FromFloor(rows, floor) == [] ==> latest.toVersion == floor && latest.target == genesisState)
  }

  /** Whether the stored history of a session is accepted, stated all at once. */
  ghost predicate AuthorityHolds(codec: Codec, session: string, v: View) {
    var rows := OrderBy(v.transitions, ToVersion);
    var events := OrderBy(v.audit, SequenceOf);
    && (forall i :: 0 <= i < |rows| ==> RowContinues(codec, session, rows, i))
    && ChainValid(codec.hashing, events)
    && Genesis(events).Some?
    && var (floor, genesisState) := Genesis(events).value;
       var covered := FromFloor(rows, floor);
       && (covered != [] ==> covered[0].fromVersion == floor && covered[0].source == genesisState)
       && |AppliedEvents(events)| == |covered|
       && EventsHaveRows(covered, AppliedEvents(events))
       && (events[0].value.payload.SessionStarted? ==>
             events[0].value.payload.taskId == v.taskId && events[0].value.stateVersion == 0)
       && ProjectionMatches(v, rows, floor, genesisState)
  }

  /**
   * `assertSessionTransitionHistoryAuthority`: three passes over the rows and the ledger. `None` where the source
   * throws.
   */
  method AssertHistoryAuthority(codec: Codec, session: string, v: View) returns (result: Option<Authority>)
    ensures result.Some? <==> AuthorityHolds(codec, session, v)
    ensures result.Some? ==>
              && (forall row :: row in OrderBy(v.transitions, ToVersion) ==> codec.parseInput(row.inputJson).Some?)
              && result.value.history == ToHistory(codec, OrderBy(v.transitions, ToVersion))
              && Genesis(OrderBy(v.audit, SequenceOf)).Some?
              && result.value.genesisState == Genesis(OrderBy(v.audit, SequenceOf)).value.1
  {
    hide RowContinues, ChainValid, EventHasRow, ProjectionMatches, FromFloor, AppliedEvents, OrderBy, Objection;
    var rows := OrderBy(v.transitions, ToVersion);
    var history: seq<HistoryEntry> := [];
    for n := 0 to |rows|
      invariant forall i :: 0 <= i < n ==> RowContinues(codec, session, rows, i)
      invariant |history| == n
      invariant forall i :: 0 <= i < n ==>
                  codec.parseInput(rows[i].inputJson).Some? && history[i] == EntryOf(codec, rows[i])
    {
      if !RowContinues(codec, session, rows, n) { return None; }
      ContinuingRowParses(codec, session, rows, n);
      var row := rows[n];
      history := history + [EntryOf(codec, row)];
    }
    var events := OrderBy(v.audit, SequenceOf);
    var verification := VerifyAuditChain(codec.hashing, events, None);
    var genesis := Genesis(events);
    if !verification.valid || genesis.None? { return None; }
    var (floor, genesisState) := genesis.value;
    var covered := FromFloor(rows, floor);
    if covered != [] && (covered[0].fromVersion != floor || covered[0].source != genesisState) { return None; }
    var applied := AppliedEvents(events);
    AppliedEventsAreApplied(events);
    if |applied| != |covered| { return None; }
    for n := 0 to |applied|
      invariant EventsHaveRows(covered, applied[..n])
    {
      if !EventHasRow(covered, applied[n]) { return None; }
    }
    assert applied[..|applied|] == applied;
    var first := events[0].value;
    if first.payload.SessionStarted? && (first.payload.taskId != v.taskId || first.stateVersion != 0) { return None; }
    if !ProjectionMatches(v, rows, floor, genesisState) { return None; }
    return Some(Authority(history, genesisState));
  }
}

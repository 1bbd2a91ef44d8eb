/**
 * What the history reader accepts, and what acceptance is worth: the rows are one path from where the ledger begins to
 * where the session stands; and the ledger pins the rows it covers, provided that it names no transition twice.
 */
module HistoryAuthority {
  import opened Options
  import opened JsonValues
  import opened Lifecycle
  import opened AuditLedger
  import opened Rows
  import opened StoreTables
  import opened StoreAnswers
  import opened StoreInvariant
  import opened StoreRuns

  // ----- the rows as a path

  /** Each row is one version further, and starts where the one before it ended. */
  ghost predicate Path(rows: seq<Transition>) {
    forall i :: 0 <= i < |rows| ==>
      && rows[i].fromVersion == rows[0].fromVersion + i && rows[i].toVersion == rows[i].fromVersion + 1
      && rows[i].fromVersion >= 0 && IsSafeInteger(rows[i].fromVersion)
      && (i > 0 ==> rows[i].source == rows[i - 1].target)
  }

  /** The session was in that state at that version, according to its rows. */
  ghost predicate Passes(v: View, rows: seq<Transition>, version: int, state: TaskStatus) {
    || (rows == [] && v.task.stateVersion == version && v.task.status == state)
    || (exists i :: 0 <= i < |rows| && rows[i].fromVersion == version && rows[i].source == state)
    || (rows != [] && rows[|rows| - 1].toVersion == version && rows[|rows| - 1].target == state)
  }

  /** The session row is where the rows end. */
  predicate Ends(v: View, rows: seq<Transition>) {
    rows != [] ==>
      var last := rows[|rows| - 1];
      last.taskId == v.taskId && last.target == v.task.status && last.toVersion == v.task.stateVersion
  }

  /** The ledger vouches for the history from that version on, which it found in that state. */
  predicate Opens(v: View, first: AuditEvent, version: int, state: TaskStatus) {
    || (first.payload == SessionStarted(v.taskId, state) && first.stateVersion == 0 && version == 0)
    || (first.payload == AuditActivated(true, state) && first.stateVersion == version)
  }

  /** The event records that very transition, request digest and all. */
  predicate Describes(event: AuditEvent, row: Transition) {
    && event.stateVersion == row.toVersion
    && event.payload.TransitionApplied?
    && event.payload
       == TransitionApplied(
            row.id, row.requestSha256, row.source, row.target, row.fromVersion, row.toVersion,
            event.payload.prePrReview)
  }

  lemma MatchIsDescription(event: AuditEvent, row: Transition)
    ensures EventMatchesRow(event, row) && event.payload.transitionId == row.id <==> Describes(event, row)
  {
  }

  /** Every applied event describes a row of the covered versions, and there are as many as versions. */
  ghost predicate Covers(v: View, rows: seq<Transition>, applied: seq<AuditEvent>, version: int) {
    && |applied| == v.task.stateVersion - version
    && forall k :: 0 <= k < |applied| ==> DescribesCovered(rows, applied[k], version)
  }

  ghost predicate Distinct(rows: seq<Transition>) {
    forall i, j :: 0 <= i < j < |rows| ==> rows[i].id != rows[j].id
  }

  // ----- the covered rows are the last ones

  lemma {:induction false} PathOfContinuing(codec: Codec, session: string, rows: seq<Transition>)
    ensures (forall i :: 0 <= i < |rows| ==> RowContinues(codec, session, rows, i))
            <==> Path(rows) && forall i :: 0 <= i < |rows| ==> RequestBound(codec, session, rows[i])
  {
    hide RequestBound;
    if rows != [] {
      var n := |rows| - 1;
      PathOfContinuing(codec, session, rows[..n]);
      ContinuesPrefix(codec, session, rows);
      PathPrefix(rows);
      if Path(rows[..n]) && n > 0 { assert rows[n - 1].fromVersion == rows[0].fromVersion + n - 1; }
    }
  }

  lemma ContinuesPrefix(codec: Codec, session: string, rows: seq<Transition>)
    requires rows != []
    ensures
      var n := |rows| - 1;
      (forall i :: 0 <= i < |rows| ==> RowContinues(codec, session, rows, i))
      <==> && (forall i :: 0 <= i < n ==> RowContinues(codec, session, rows[..n], i))
           && RowContinues(codec, session, rows, n)
  {
    hide RequestBound;
    var n := |rows| - 1;
    forall i | 0 <= i < n
      ensures RowContinues(codec, session, rows[..n], i) <==> RowContinues(codec, session, rows, i)
    {
      assert rows[..n][i] == rows[i];
    }
  }

  lemma PathPrefix(rows: seq<Transition>)
    requires rows != []
    ensures
      var n := |rows| - 1;
      Path(rows) <==> && Path(rows[..n]) && rows[n].fromVersion == rows[0].fromVersion + n
                      && rows[n].toVersion == rows[n].fromVersion + 1
                      && rows[n].fromVersion >= 0 && IsSafeInteger(rows[n].fromVersion)
                      && (n > 0 ==> rows[n].source == rows[n - 1].target)
  {
    var n := |rows| - 1;
    assert forall i :: 0 <= i < n ==> rows[..n][i] == rows[i];
  }

  /** How many rows come before that version. */
  function Before(rows: seq<Transition>, version: int): (n: nat)
    ensures n <= |rows|
  {
    if rows == [] || version <= rows[0].fromVersion then 0
    else if version - rows[0].fromVersion > |rows| then |rows|
    else version - rows[0].fromVersion
  }

  lemma {:induction false} CoveredIsSuffix(rows: seq<Transition>, version: int)
    requires Path(rows)
    ensures FromFloor(rows, version) == rows[Before(rows, version)..]
  {
    hide Path;
    if rows != [] {
      var n := |rows| - 1;
      PathPrefix(rows);
      CoveredIsSuffix(rows[..n], version);
      assert rows == rows[..n] + [rows[n]];
    }
  }

  lemma {:induction false} LastWithIdIsTheRow(rows: seq<Transition>, id: string)
    requires Distinct(rows)
    ensures forall row :: LastWithId(rows, id) == Some(row) <==> row in rows && row.id == id
    ensures LastWithId(rows, id).None? <==> forall row :: row in rows ==> row.id != id
  {
    if rows != [] {
      var n := |rows| - 1;
      LastWithIdIsTheRow(rows[..n], id);
      assert rows == rows[..n] + [rows[n]];
    }
  }

  // ----- acceptance

  /** The reader's verdict, without its passes: one path, bound requests, a linked ledger that covers the path's end. */
  ghost predicate Sound(codec: Codec, session: string, v: View, rows: seq<Transition>, events: seq<StoredEvent>) {
    && Path(rows) && (forall i :: 0 <= i < |rows| ==> RequestBound(codec, session, rows[i]))
    && ChainValid(codec.hashing, events) && events != []
    && Ends(v, rows)
    && exists version, state ::
         && Opens(v, events[0].value, version, state)
         && Passes(v, rows, version, state)
         && Covers(v, rows, AppliedEvents(events), version)
  }

  lemma GenesisIsOpening(v: View, events: seq<StoredEvent>, version: int, state: TaskStatus)
    requires events != []
    ensures Opens(v, events[0].value, version, state)
            <==> && Genesis(events) == Some((version, state))
                 && (events[0].value.payload.SessionStarted? ==>
                       events[0].value.payload.taskId == v.taskId && events[0].value.stateVersion == 0)
  {
  }

  /** On a path, a version is passed at one place only. */
  lemma PassesOnce(v: View, rows: seq<Transition>, version: int, state: TaskStatus)
    requires Path(rows) && rows != []
    ensures
      var k, n := Before(rows, version), |rows|;
      Passes(v, rows, version, state)
      <==> if k < n then rows[k].fromVersion == version && rows[k].source == state
           else rows[n - 1].toVersion == version && rows[n - 1].target == state
  {
    var k, n := Before(rows, version), |rows|;
    assert rows[n - 1].fromVersion == rows[0].fromVersion + n - 1;
    if k < n { assert rows[k].fromVersion == rows[0].fromVersion + k; }
    if i :| 0 <= i < n && rows[i].fromVersion == version && rows[i].source == state {
      assert rows[i].fromVersion == rows[0].fromVersion + i;
      assert i == k;
    }
  }

  lemma CoveredAre(rows: seq<Transition>, version: int)
    requires Path(rows)
    ensures
      var covered, k := FromFloor(rows, version), Before(rows, version);
      && |covered| == |rows| - k
      && (forall row :: row in covered <==> row in rows && row.fromVersion >= version)
      && (k < |rows| ==> covered[0] == rows[k])
  {
    CoveredIsSuffix(rows, version);
    var k := Before(rows, version);
    forall row | row in rows ensures row in rows[k..] <==> row.fromVersion >= version {
      var i :| 0 <= i < |rows| && rows[i] == row;
      assert rows[i].fromVersion == rows[0].fromVersion + i;
      if i >= k { assert rows[k..][i - k] == row; }
    }
  }

  /** Where the rows pass through the opening, the covered ones are those after it. */
  lemma CoverageIsExact(v: View, rows: seq<Transition>, version: int, state: TaskStatus)
    requires Path(rows) && Ends(v, rows)
    ensures
      var covered := FromFloor(rows, version);
      && (Passes(v, rows, version, state)
          <==> && (covered != [] ==> covered[0].fromVersion == version && covered[0].source == state)
               && ProjectionMatches(v, rows, version, state))
      && (Passes(v, rows, version, state) ==> |covered| == v.task.stateVersion - version)
  {
    hide Path, Passes, FromFloor;
    CoveredAre(rows, version);
    if rows != [] {
      PassesOnce(v, rows, version, state);
      assert rows[|rows| - 1].toVersion == rows[0].fromVersion + |rows| by { PathLength(rows); }
    } else {
      PassesNowhere(v, rows, version, state);
    }
  }

  lemma PathLength(rows: seq<Transition>)
    requires Path(rows) && rows != []
    ensures rows[|rows| - 1].toVersion == rows[0].fromVersion + |rows|
    ensures forall k :: 0 <= k < |rows| ==> rows[k].fromVersion == rows[0].fromVersion + k
  {
  }

  lemma PassesNowhere(v: View, rows: seq<Transition>, version: int, state: TaskStatus)
    requires rows == []
    ensures Passes(v, rows, version, state) <==> v.task.stateVersion == version && v.task.status == state
  {
  }

  ghost predicate DescribesCovered(rows: seq<Transition>, event: AuditEvent, version: int) {
    exists i :: 0 <= i < |rows| && rows[i].fromVersion >= version && Describes(event, rows[i])
  }

  lemma EventDescribesRow(rows: seq<Transition>, covered: seq<Transition>, event: AuditEvent, version: int)
    requires Distinct(covered) && event.payload.TransitionApplied?
    requires forall row :: row in covered <==> row in rows && row.fromVersion >= version
    ensures EventHasRow(covered, event) <==> DescribesCovered(rows, event, version)
  {
    hide EventMatchesRow, LastWithId, Distinct, Describes;
    forall row | true
      ensures EventMatchesRow(event, row) && event.payload.transitionId == row.id <==> Describes(event, row)
    {
      MatchIsDescription(event, row);
    }
    LastWithIdIsTheRow(covered, event.payload.transitionId);
    if DescribesCovered(rows, event, version) {
      var i :| 0 <= i < |rows| && rows[i].fromVersion >= version && Describes(event, rows[i]);
      assert rows[i] in covered;
    }
    if EventHasRow(covered, event) {
      var row := LastWithId(covered, event.payload.transitionId).value;
      assert row in rows;
      var i :| 0 <= i < |rows| && rows[i] == row;
      assert Describes(event, rows[i]);
    }
  }

  lemma EventsDescribeRows(rows: seq<Transition>, covered: seq<Transition>, applied: seq<AuditEvent>, version: int)
    requires Distinct(covered)
    requires forall row :: row in covered <==> row in rows && row.fromVersion >= version
    ensures EventsHaveRows(covered, applied)
            <==> forall k :: 0 <= k < |applied| ==> DescribesCovered(rows, applied[k], version)
  {
    hide EventMatchesRow, LastWithId, Distinct, EventHasRow, DescribesCovered;
    forall k | 0 <= k < |applied|
      ensures DescribesCovered(rows, applied[k], version) ==> applied[k].payload.TransitionApplied?
      ensures applied[k].payload.TransitionApplied? ==>
                (EventHasRow(covered, applied[k]) <==> DescribesCovered(rows, applied[k], version))
    {
      DescribedIsApplied(rows, applied[k], version);
      if applied[k].payload.TransitionApplied? { EventDescribesRow(rows, covered, applied[k], version); }
    }
  }

  lemma DescribedIsApplied(rows: seq<Transition>, event: AuditEvent, version: int)
    ensures DescribesCovered(rows, event, version) ==> event.payload.TransitionApplied?
  {
  }

  lemma SuffixIsDistinct(rows: seq<Transition>, version: int)
    requires Path(rows) && Distinct(rows)
    ensures Distinct(FromFloor(rows, version))
  {
    CoveredIsSuffix(rows, version);
  }

  /** What the reader checks once it knows where the ledger begins. */
  ghost predicate AuthorityFrom(
    v: View, rows: seq<Transition>, events: seq<StoredEvent>, version: int, state: TaskStatus)
    requires events != []
  {
    var covered := FromFloor(rows, version);
    && (covered != [] ==> covered[0].fromVersion == version && covered[0].source == state)
    && |AppliedEvents(events)| == |covered|
    && EventsHaveRows(covered, AppliedEvents(events))
    && (events[0].value.payload.SessionStarted? ==>
          events[0].value.payload.taskId == v.taskId && events[0].value.stateVersion == 0)
    && ProjectionMatches(v, rows, version, state)
  }

  lemma ReaderUnfolds(codec: Codec, session: string, v: View, rows: seq<Transition>, events: seq<StoredEvent>)
    requires rows == OrderBy(v.transitions, ToVersion) && events == OrderBy(v.audit, SequenceOf)
    ensures AuthorityHolds(codec, session, v)
            <==> && (forall i :: 0 <= i < |rows| ==> RowContinues(codec, session, rows, i))
                 && ChainValid(codec.hashing, events) && events != []
                 && exists version, state ::
                      Genesis(events) == Some((version, state)) && AuthorityFrom(v, rows, events, version, state)
  {
    hide OrderBy, RowContinues, ChainValid, FromFloor, EventsHaveRows, ProjectionMatches;
    if AuthorityHolds(codec, session, v) {
      var (version, state) := Genesis(events).value;
      assert AuthorityFrom(v, rows, events, version, state);
    }
  }

  lemma OpeningIsExact(v: View, rows: seq<Transition>, events: seq<StoredEvent>, version: int, state: TaskStatus)
    requires Path(rows) && Distinct(rows) && events != []
    ensures Opens(v, events[0].value, version, state) && Passes(v, rows, version, state)
            && Covers(v, rows, AppliedEvents(events), version) && Ends(v, rows)
            <==> Genesis(events) == Some((version, state)) && AuthorityFrom(v, rows, events, version, state)
  {
    hide Path, Passes, Ends, Opens, Distinct, FromFloor, Genesis, EventsHaveRows, DescribesCovered, ProjectionMatches,
      AppliedEvents;
    if ProjectionMatches(v, rows, version, state) { MatchEnds(v, rows, version, state); }
    if Ends(v, rows) {
      GenesisIsOpening(v, events, version, state);
      CoverageIsExact(v, rows, version, state);
      SuffixIsDistinct(rows, version);
      CoveredAre(rows, version);
      EventsDescribeRows(rows, FromFloor(rows, version), AppliedEvents(events), version);
    }
  }

  lemma MatchEnds(v: View, rows: seq<Transition>, version: int, state: TaskStatus)
    requires ProjectionMatches(v, rows, version, state)
    ensures Ends(v, rows)
  {
  }

  /** The passes of the reader accept exactly the sound histories; transition identifiers are a primary key. */
  lemma AcceptedIsExact(codec: Codec, session: string, v: View)
    requires Distinct(OrderBy(v.transitions, ToVersion))
    ensures AuthorityHolds(codec, session, v)
            <==> Sound(codec, session, v, OrderBy(v.transitions, ToVersion), OrderBy(v.audit, SequenceOf))
  {
    hide OrderBy, RowContinues, RequestBound, ChainValid, Path, Passes, Ends, Opens, Distinct, Genesis, Covers,
      AuthorityFrom, AuthorityHolds;
    var rows, events := OrderBy(v.transitions, ToVersion), OrderBy(v.audit, SequenceOf);
    ReaderUnfolds(codec, session, v, rows, events);
    PathOfContinuing(codec, session, rows);
    if Path(rows) && events != [] {
      forall version, state | true
        ensures Opens(v, events[0].value, version, state) && Passes(v, rows, version, state)
                && Covers(v, rows, AppliedEvents(events), version) && Ends(v, rows)
                <==> Genesis(events) == Some((version, state)) && AuthorityFrom(v, rows, events, version, state)
      {
        OpeningIsExact(v, rows, events, version, state);
      }
    }
  }

  // ----- what an accepted ledger pins

  ghost predicate Unique(ids: seq<string>) {
    forall i, j :: 0 <= i < j < |ids| ==> ids[i] != ids[j]
  }

  function Members(ids: seq<string>): set<string> {
    set id | id in ids
  }

  lemma {:induction false} MembersCount(ids: seq<string>)
    ensures |Members(ids)| <= |ids|
    ensures |Members(ids)| == |ids| <==> Unique(ids)
  {
    if ids != [] {
      var n := |ids| - 1;
      MembersCount(ids[..n]);
      assert ids == ids[..n] + [ids[n]];
      assert Members(ids) == Members(ids[..n]) + {ids[n]};
      assert Unique(ids) <==> Unique(ids[..n]) && ids[n] !in ids[..n];
    }
  }

  lemma {:induction false} SizeOfSubset(small: set<string>, large: set<string>)
    requires small <= large
    ensures |small| <= |large|
    ensures |small| == |large| ==> small == large
  {
    if small != {} {
      var x :| x in small;
      SizeOfSubset(small - {x}, large - {x});
      assert large == large - {x} + {x};
    } else if large != {} {
      assert |large| > 0;
    }
  }

  /** Hits among as many distinct members reach every one of them exactly when no hit repeats. */
  lemma HitsAll(hits: seq<string>, ids: seq<string>)
    requires |hits| == |ids| && Unique(ids) && forall k :: 0 <= k < |hits| ==> hits[k] in ids
    ensures (forall id :: id in ids ==> id in hits) <==> Unique(hits)
  {
    hide Unique;
    MembersCount(hits);
    MembersCount(ids);
    assert Members(hits) <= Members(ids);
    SizeOfSubset(Members(hits), Members(ids));
    if forall id :: id in ids ==> id in hits { assert Members(hits) == Members(ids); }
    if Unique(hits) {
      assert Members(hits) == Members(ids);
      forall id | id in ids ensures id in hits {
        assert id in Members(ids);
      }
    }
  }

  function NameOf(event: AuditEvent): string {
    if event.payload.TransitionApplied? then event.payload.transitionId else ""
  }

  function NamesOf(applied: seq<AuditEvent>): seq<string> {
    seq(|applied|, k requires 0 <= k < |applied| => NameOf(applied[k]))
  }

  function IdsOf(rows: seq<Transition>): seq<string> {
    seq(|rows|, i requires 0 <= i < |rows| => rows[i].id)
  }

  /** No two applied events name the same transition. */
  ghost predicate NamedOnce(applied: seq<AuditEvent>) {
    Unique(NamesOf(applied))
  }

  ghost predicate DescribedBy(applied: seq<AuditEvent>, row: Transition) {
    exists k :: 0 <= k < |applied| && Describes(applied[k], row)
  }

  ghost predicate DescribesOne(event: AuditEvent, rows: seq<Transition>) {
    exists i :: 0 <= i < |rows| && Describes(event, rows[i])
  }

  /**
   * The reader checks that every event has a row, and counts. That leaves every covered row with an event exactly
   * when no transition is named twice.
   */
  lemma EveryRowIsDescribed(rows: seq<Transition>, applied: seq<AuditEvent>)
    requires Distinct(rows) && |applied| == |rows|
    requires forall k :: 0 <= k < |applied| ==> DescribesOne(applied[k], rows)
    ensures (forall i :: 0 <= i < |rows| ==> DescribedBy(applied, rows[i])) <==> NamedOnce(applied)
  {
    hide DescribedBy, DescribesOne, Unique;
    var hits, ids := NamesOf(applied), IdsOf(rows);
    DistinctIsUnique(rows);
    forall k | 0 <= k < |hits| ensures hits[k] in ids {
      OneHasItsName(applied[k], rows);
    }
    HitsAll(hits, ids);
    forall i | 0 <= i < |rows| ensures DescribedBy(applied, rows[i]) <==> rows[i].id in hits {
      NamedIsDescribed(rows, applied, i);
    }
    assert forall i :: 0 <= i < |rows| ==> ids[i] == rows[i].id && ids[i] in ids;
    assert (forall i :: 0 <= i < |rows| ==> rows[i].id in hits) <==> forall id :: id in ids ==> id in hits;
  }

  lemma DistinctIsUnique(rows: seq<Transition>)
    ensures Distinct(rows) <==> Unique(IdsOf(rows))
  {
    var ids := IdsOf(rows);
    assert forall i :: 0 <= i < |rows| ==> ids[i] == rows[i].id;
  }

  lemma OneHasItsName(event: AuditEvent, rows: seq<Transition>)
    requires DescribesOne(event, rows)
    ensures NameOf(event) in IdsOf(rows)
  {
    var i :| 0 <= i < |rows| && Describes(event, rows[i]);
    DescribedHasId(event, rows[i]);
    assert IdsOf(rows)[i] == rows[i].id;
  }

  lemma NamedIsDescribed(rows: seq<Transition>, applied: seq<AuditEvent>, i: nat)
    requires Distinct(rows) && i < |rows|
    requires forall k :: 0 <= k < |applied| ==> DescribesOne(applied[k], rows)
    ensures DescribedBy(applied, rows[i]) <==> rows[i].id in NamesOf(applied)
  {
    hide Describes;
    if DescribedBy(applied, rows[i]) {
      var k :| 0 <= k < |applied| && Describes(applied[k], rows[i]);
      DescribedHasId(applied[k], rows[i]);
      assert NamesOf(applied)[k] == rows[i].id;
    }
    if rows[i].id in NamesOf(applied) {
      var k :| 0 <= k < |applied| && NamesOf(applied)[k] == rows[i].id;
      assert DescribesOne(applied[k], rows);
      var j :| 0 <= j < |rows| && Describes(applied[k], rows[j]);
      DescribedHasId(applied[k], rows[j]);
      assert i == j;
    }
  }

  lemma DescribedHasId(event: AuditEvent, row: Transition)
    requires Describes(event, row)
    ensures NameOf(event) == row.id
  {
  }

  /** All that a ledger says of a row. */
  predicate SameAsRecorded(row: Transition, other: Transition) {
    && row.id == other.id && row.source == other.source && row.target == other.target
    && row.fromVersion == other.fromVersion && row.toVersion == other.toVersion
    && row.requestSha256 == other.requestSha256
  }

  /** Different requests print differently, and no two texts share a digest. */
  ghost predicate BindsRequests(codec: Codec) {
    && (forall a, b :: codec.hashing.digest(a) == codec.hashing.digest(b) ==> a == b)
    && (forall x, y :: codec.printRequest(x) == codec.printRequest(y) ==> x == y)
  }

  /**
   * Two histories that are accepted with one ledger, started with its session and naming no transition twice, agree
   * row by row in everything the ledger says; where digests bind, in actor and input too. So no row can be altered,
   * dropped, added or swapped under a ledger that is kept.
   */
  lemma LedgerDeterminesHistory(codec: Codec, session: string, v: View, w: View)
    requires AuthorityHolds(codec, session, v) && AuthorityHolds(codec, session, w) && v.audit == w.audit
    requires Distinct(OrderBy(v.transitions, ToVersion)) && Distinct(OrderBy(w.transitions, ToVersion))
    requires OrderBy(v.audit, SequenceOf) != [] && OrderBy(v.audit, SequenceOf)[0].value.payload.SessionStarted?
    requires NamedOnce(AppliedEvents(OrderBy(v.audit, SequenceOf)))
    ensures
      var mine, theirs := OrderBy(v.transitions, ToVersion), OrderBy(w.transitions, ToVersion);
      && |mine| == |theirs|
      && (forall i :: 0 <= i < |mine| ==> SameAsRecorded(mine[i], theirs[i]))
      && (BindsRequests(codec) ==>
            forall i :: 0 <= i < |mine| ==>
                          mine[i].actor == theirs[i].actor && mine[i].inputJson == theirs[i].inputJson)
      && v.task.status == w.task.status && v.task.stateVersion == w.task.stateVersion
  {
    hide OrderBy, AuthorityHolds, Path, Distinct, AppliedEvents, Describes, ChainValid, NamedOnce, RequestBound,
      BindsRequests;
    var mine, theirs := OrderBy(v.transitions, ToVersion), OrderBy(w.transitions, ToVersion);
    var events := OrderBy(v.audit, SequenceOf);
    var applied := AppliedEvents(events);
    CoveredFromStart(codec, session, v);
    CoveredFromStart(codec, session, w);
    EveryRowIsDescribed(mine, applied);
    forall i | 0 <= i < |mine|
      ensures SameAsRecorded(mine[i], theirs[i])
      ensures BindsRequests(codec) ==> mine[i].actor == theirs[i].actor && mine[i].inputJson == theirs[i].inputJson
    {
      assert DescribedBy(applied, mine[i]);
      var k :| 0 <= k < |applied| && Describes(applied[k], mine[i]);
      assert DescribesOne(applied[k], theirs);
      var j :| 0 <= j < |theirs| && Describes(applied[k], theirs[j]);
      DescribedAgree(applied[k], mine[i], theirs[j]);
      assert theirs[j].fromVersion == j && mine[i].fromVersion == i;
      if BindsRequests(codec) { SameRequest(codec, session, mine[i], theirs[i]); }
    }
  }

  lemma CoveredFromStart(codec: Codec, session: string, v: View)
    requires AuthorityHolds(codec, session, v) && Distinct(OrderBy(v.transitions, ToVersion))
    requires OrderBy(v.audit, SequenceOf) != [] && OrderBy(v.audit, SequenceOf)[0].value.payload.SessionStarted?
    ensures
      var rows, events := OrderBy(v.transitions, ToVersion), OrderBy(v.audit, SequenceOf);
      var applied := AppliedEvents(events);
      && |applied| == |rows| == v.task.stateVersion
      && (forall k :: 0 <= k < |applied| ==> DescribesOne(applied[k], rows))
      && (forall i :: 0 <= i < |rows| ==> rows[i].fromVersion == i && RequestBound(codec, session, rows[i]))
      && v.task.status == (if rows == [] then events[0].value.payload.lifecycleState else rows[|rows| - 1].target)
  {
    hide OrderBy, AuthorityHolds, Path, Distinct, AppliedEvents, Describes, ChainValid, RequestBound;
    AcceptedIsExact(codec, session, v);
    var rows, events := OrderBy(v.transitions, ToVersion), OrderBy(v.audit, SequenceOf);
    hide DescribesOne, DescribesCovered;
    var version, state :| Opens(v, events[0].value, version, state) && Passes(v, rows, version, state)
                          && Covers(v, rows, AppliedEvents(events), version);
    forall k | 0 <= k < |AppliedEvents(events)| ensures DescribesOne(AppliedEvents(events)[k], rows) {
      CoveredIsOne(rows, AppliedEvents(events)[k], version);
    }
    if rows != [] {
      PathLength(rows);
      PathStarts(rows);
    }
  }

  lemma CoveredIsOne(rows: seq<Transition>, event: AuditEvent, version: int)
    requires DescribesCovered(rows, event, version)
    ensures DescribesOne(event, rows)
  {
    hide Describes;
  }

  lemma PathStarts(rows: seq<Transition>)
    requires Path(rows) && rows != []
    ensures rows[0].fromVersion >= 0
  {
  }

  lemma DescribedAgree(event: AuditEvent, row: Transition, other: Transition)
    requires Describes(event, row) && Describes(event, other)
    ensures SameAsRecorded(row, other)
  {
  }

  lemma SameRequest(codec: Codec, session: string, row: Transition, other: Transition)
    requires RequestBound(codec, session, row) && RequestBound(codec, session, other)
    requires SameAsRecorded(row, other) && BindsRequests(codec)
    ensures row.actor == other.actor && row.inputJson == other.inputJson
  {
  }

  // ----- a transition named twice

  function Stored(codec: Codec, value: AuditEvent): StoredEvent {
    StoredEvent(value, codec.hashing.canonical(value), codec.hashing.digest(codec.hashing.canonical(value)))
  }

  function RowOf(codec: Codec, session: string, id: string, source: TaskStatus, target: TaskStatus, version: nat)
    : Transition
  {
    Transition(
      id, "task", source, target, version, version + 1, Cli, codec.printInput(Null),
      codec.hashing.digest(codec.printRequest(TransitionRequest(session, target, version, Cli, Null))), 0)
  }

  /** A ledger that names transition `a` twice, and no other. */
  function TwiceNamed(codec: Codec, session: string): seq<StoredEvent> {
    var row := RowOf(codec, session, "a", Queued, Framed, 0);
    var applied := TransitionApplied("a", row.requestSha256, Queued, Framed, 0, 1, None);
    var first := Stored(codec, AuditEvent("1", session, 1, 0, 0, ZERO_AUDIT_HASH, SessionStarted("task", Queued)));
    var second := Stored(codec, AuditEvent("2", session, 2, 0, 1, first.sha256, applied));
    [first, second, Stored(codec, AuditEvent("3", session, 3, 0, 1, second.sha256, applied))]
  }

  /** Framed, and then sent on to `target`, which the ledger does not know of. */
  function Unnamed(codec: Codec, session: string, target: TaskStatus): View {
    View(
      "task", TaskRow(target, 2, None), None,
      [RowOf(codec, session, "a", Queued, Framed, 0), RowOf(codec, session, "b", Framed, target, 1)],
      [], [], None, [], [], [], TwiceNamed(codec, session))
  }

  lemma TwiceNamedChain(codec: Codec, session: string)
    ensures
      var events := TwiceNamed(codec, session);
      && ChainValid(codec.hashing, events) && OrderBy(events, SequenceOf) == events
      && AppliedEvents(events) == [events[1].value, events[2].value]
  {
    var events := TwiceNamed(codec, session);
    assert events[..0] == [] && events[..1] == [events[0]] && events[..2] == [events[0], events[1]];
    assert Objection(codec.hashing, events, 0).None?;
    assert Objection(codec.hashing, events, 1).None?;
    assert Objection(codec.hashing, events, 2).None?;
    OrderByAscending(events, SequenceOf);
    assert [events[0], events[1]][..1] == [events[0]];
    assert AppliedEvents([events[0]]) == [];
    assert AppliedEvents([events[0], events[1]]) == [events[1].value];
  }

  /** Without that condition the second row is free: the reader accepts any, under one ledger and for every codec. */
  lemma TwiceNamedIsAccepted(codec: Codec, session: string, target: TaskStatus)
    requires Lawful(codec)
    ensures AuthorityHolds(codec, session, Unnamed(codec, session, target))
    ensures !NamedOnce(AppliedEvents(OrderBy(TwiceNamed(codec, session), SequenceOf)))
  {
    hide ChainValid, AppliedEvents, OrderBy, AuthorityHolds, TwiceNamed;
    var v := Unnamed(codec, session, target);
    var rows, events := v.transitions, v.audit;
    TwiceNamedChain(codec, session);
    UnnamedInOrder(codec, session, target);
    AcceptedIsExact(codec, session, v);
    OpensWithStart(codec, session, target);
    NamesFirst(codec, session);
    forall k | 0 <= k < 2 ensures DescribesCovered(rows, AppliedEvents(events)[k], 0) {
      assert Describes(AppliedEvents(events)[k], rows[0]);
    }
    assert Covers(v, rows, AppliedEvents(events), 0);
    assert NamesOf(AppliedEvents(events))[0] == NamesOf(AppliedEvents(events))[1];
  }

  lemma UnnamedInOrder(codec: Codec, session: string, target: TaskStatus)
    requires Lawful(codec)
    ensures
      var v := Unnamed(codec, session, target);
      && OrderBy(v.transitions, ToVersion) == v.transitions && Path(v.transitions) && Distinct(v.transitions)
      && Ends(v, v.transitions)
      && forall i :: 0 <= i < 2 ==> RequestBound(codec, session, v.transitions[i])
  {
    OrderByAscending(Unnamed(codec, session, target).transitions, ToVersion);
  }

  lemma OpensWithStart(codec: Codec, session: string, target: TaskStatus)
    ensures
      var v := Unnamed(codec, session, target);
      v.audit != [] && Opens(v, v.audit[0].value, 0, Queued) && Passes(v, v.transitions, 0, Queued)
  {
    var rows := Unnamed(codec, session, target).transitions;
    assert rows[0].fromVersion == 0 && rows[0].source == Queued;
  }

  lemma NamesFirst(codec: Codec, session: string)
    ensures
      var row, events := RowOf(codec, session, "a", Queued, Framed, 0), TwiceNamed(codec, session);
      && Describes(events[1].value, row) && Describes(events[2].value, row)
      && NameOf(events[1].value) == NameOf(events[2].value)
  {
  }

  /** The writer names each transition once, so under any ledger it wrote the history is determined. */
  lemma WrittenNamesOnce(codec: Codec, session: string, v: View)
    requires SessionInv(codec, session, v)
    ensures Distinct(OrderBy(v.transitions, ToVersion)) && NamedOnce(AppliedEvents(OrderBy(v.audit, SequenceOf)))
    ensures OrderBy(v.audit, SequenceOf) != [] && OrderBy(v.audit, SequenceOf)[0].value.payload.SessionStarted?
  {
    hide Conserved, DecisionInv, EvidenceInv, AnswerInv, ChainValid, OrderBy, AppliedEvents, RowInPlace;
    ReadOrderIsWriteOrder(codec, session, v);
    AppliedEventsAreApplied(v.audit);
  }

  /**
   * In every run: whatever is put in place of a session's rows while its ledger is kept, the reader refuses it, or it
   * agrees with the rows that were written in all that the ledger says.
   */
  lemma WrittenHistoryIsPinned(codec: Codec, steps: seq<Step>, session: string, w: View)
    requires Lawful(codec) && session in After(codec, steps).sessions
    requires Known(After(codec, steps), session)
    requires w.audit == ViewOf(After(codec, steps), session).audit && Distinct(OrderBy(w.transitions, ToVersion))
    requires AuthorityHolds(codec, session, w)
    ensures
      var mine, theirs := ViewOf(After(codec, steps), session).transitions, OrderBy(w.transitions, ToVersion);
      && |mine| == |theirs|
      && (forall i :: 0 <= i < |mine| ==> SameAsRecorded(mine[i], theirs[i]))
      && (BindsRequests(codec) ==>
            forall i :: 0 <= i < |mine| ==>
                          mine[i].actor == theirs[i].actor && mine[i].inputJson == theirs[i].inputJson)
  {
    hide After, ViewOf, SessionInv, OrderBy, AuthorityHolds, Distinct, NamedOnce, AppliedEvents, SameAsRecorded,
      BindsRequests, Lawful;
    KnownAt(codec, steps, session);
    var v := ViewOf(After(codec, steps), session);
    AgreesOnSession(codec, session, v);
    WrittenNamesOnce(codec, session, v);
    WrittenInOrder(codec, session, v);
    LedgerDeterminesHistory(codec, session, v, w);
  }

  lemma WrittenInOrder(codec: Codec, session: string, v: View)
    requires SessionInv(codec, session, v)
    ensures OrderBy(v.transitions, ToVersion) == v.transitions
  {
    hide Conserved, DecisionInv, EvidenceInv, AnswerInv, ChainValid, OrderBy, AppliedEvents, RowInPlace;
    ReadOrderIsWriteOrder(codec, session, v);
  }
}

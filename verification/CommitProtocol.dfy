/**
 * The commit protocol of src/adapters/fs/gaap-state.ts over a SQLite file that may lose the reply to any statement,
 * while other processes commit whenever this one does not hold the write lock.
 */
module CommitProtocol {
  import opened Options
  import opened JsonValues

  /** The retained root: its revision, and everything else the database holds. */
  datatype Root<+C> = Root(revision: int, content: C)

  /** One committed state of the file; state files older than the marker carry no generation. */
  datatype Commit<+C> = Commit(root: Root<C>, generation: Option<string>)

  /** A commit by another process: what it left in the root, under its own token. */
  datatype Rival<+C> = Rival(content: C, generation: string)

  // ----- SQLite

  /** What COMMIT did, and whether its reply arrived. */
  datatype CommitFate = Done | ReplyLost | RefusedActive | RefusedEnded

  /** ROLLBACK fails when no transaction is active, and may fail even when one is. */
  datatype RollbackFate = RolledBack | FailedActive | FailedEnded

  /** The file: every state committed to it, oldest first. A fresh connection reads the last. */
  class Database<C> {
    var log: seq<Commit<C>>

    constructor ()
      ensures log == []
    {
      log := [];
    }
  }

  class Connection<C> {
    const database: Database<C>
    var active: bool
    var staged: Option<Commit<C>>

    constructor (database: Database<C>)
      ensures this.database == database && !active && staged.None?
    {
      this.database := database;
      active, staged := false, None;
    }

    method Begin(granted: bool)
      modifies this
      ensures active == granted && staged.None?
    {
      active, staged := granted, None;
    }

    /** Uncommitted rows are visible to this connection only. */
    method Stage(commit: Commit<C>)
      requires active
      modifies this`staged
      ensures staged == Some(commit)
    {
      staged := Some(commit);
    }

    /** COMMIT is atomic: everything staged becomes durable, or nothing does, whatever the caller hears. */
    method ExecCommit(fate: CommitFate) returns (replied: bool)
      requires active && staged.Some?
      modifies this, database
      ensures replied <==> fate.Done?
      ensures database.log
              == old(database.log) + if fate.Done? || fate.ReplyLost? then [old(staged).value] else []
      ensures active <==> fate.RefusedActive?
    {
      if fate.Done? || fate.ReplyLost? { database.log := database.log + [staged.value]; }
      active := fate.RefusedActive?;
      staged := None;
      replied := fate.Done?;
    }

    method Rollback(fate: RollbackFate) returns (ok: bool)
      modifies this
      ensures ok <==> old(active) && fate.RolledBack?
      ensures active <==> old(active) && fate.FailedActive?
    {
      ok := active && fate.RolledBack?;
      active := active && fate.FailedActive?;
      staged := None;
    }

    /** Closing discards an open transaction, even when it reports a failure. */
    method Close()
      modifies this
      ensures !active
    {
      active, staged := false, None;
    }
  }

  // ----- what the log of a file looks like

  /** Committed roots carry the revisions 0, 1, 2, ... */
  predicate Numbered<C>(log: seq<Commit<C>>) {
    forall i :: 0 <= i < |log| ==> log[i].root.revision == i
  }

  predicate Readable<C>(log: seq<Commit<C>>) {
    log != [] && IsSafeInteger(log[|log| - 1].root.revision) && log[|log| - 1].root.revision >= 0
  }

  /** Other processes follow the same protocol: each reads the root, and commits the next revision under its token. */
  function Raced<C>(log: seq<Commit<C>>, rivals: seq<Rival<C>>): (after: seq<Commit<C>>)
    ensures log <= after
    ensures Numbered(log) ==> Numbered(after)
    decreases |rivals|
  {
    if rivals == [] || !Readable(log) then log
    else
      Raced(log + [Commit(Root(log[|log| - 1].root.revision + 1, rivals[0].content), Some(rivals[0].generation))],
            rivals[1..])
  }

  predicate Wrote<C>(log: seq<Commit<C>>, generation: string) {
    exists i :: 0 <= i < |log| && log[i].generation == Some(generation)
  }

  predicate RivalUses<C>(rivals: seq<Rival<C>>, generation: string) {
    exists i :: 0 <= i < |rivals| && rivals[i].generation == generation
  }

  lemma {:induction false} RivalsKeepTokens<C>(log: seq<Commit<C>>, rivals: seq<Rival<C>>, generation: string)
    requires !RivalUses(rivals, generation)
    ensures Wrote(Raced(log, rivals), generation) <==> Wrote(log, generation)
    ensures forall i :: |log| <= i < |Raced(log, rivals)| ==> Raced(log, rivals)[i].generation != Some(generation)
    decreases |rivals|
  {
    if rivals != [] && Readable(log) {
      var next := log + [Commit(Root(log[|log| - 1].root.revision + 1, rivals[0].content), Some(rivals[0].generation))];
      assert rivals[0].generation != generation;
      RivalsKeepTokens(next, rivals[1..], generation);
      assert forall i :: 0 <= i < |log| ==> next[i] == log[i];
    }
  }

  // ----- mutate

  /** Everything outside the program's control during one `mutate`. */
  datatype Weather<+C> = Weather(
    opens: bool, rivalsBefore: seq<Rival<C>>, begins: bool, faultBefore: bool, commit: CommitFate, faultAfter: bool,
    rollback: RollbackFate, rivalsBetween: seq<Rival<C>>, readback: bool, closes: bool)

  datatype Outcome<+T> = Returned(value: T) | CommittedError | CommitUncertain | Failed

  /** What an outcome promises the caller: only the uncertain error leaves durability open. */
  predicate Reported<T>(durable: bool, outcome: Outcome<T>) {
    && (outcome.Returned? || outcome.CommittedError? ==> durable)
    && (outcome.Failed? ==> !durable)
  }

  /** No other process draws the same random token. */
  predicate OwnToken<C>(log: seq<Commit<C>>, weather: Weather<C>, generation: string) {
    && !Wrote(log, generation)
    && !RivalUses(weather.rivalsBefore, generation)
    && !RivalUses(weather.rivalsBetween, generation)
  }

  predicate Lands(attempted: bool, fate: CommitFate) {
    attempted && (fate.Done? || fate.ReplyLost?)
  }

  /** The transaction is fenced, its operation succeeds, and it gets as far as COMMIT. */
  predicate Attempts<C, T>(
    seen: seq<Commit<C>>, expectedRevision: int, operation: C -> Option<(C, T)>, weather: Weather<C>)
  {
    && weather.begins && Readable(seen) && seen[|seen| - 1].root.revision == expectedRevision
    && operation(seen[|seen| - 1].root.content).Some?
    && !weather.faultBefore
  }

  /** The database opens, and the transaction gets as far as COMMIT over what the others have committed by then. */
  predicate Tries<C, T>(
    start: seq<Commit<C>>, expectedRevision: int, operation: C -> Option<(C, T)>, weather: Weather<C>)
  {
    weather.opens && start != [] && Attempts(Raced(start, weather.rivalsBefore), expectedRevision, operation, weather)
  }

  /** After an attempted COMMIT, whether ROLLBACK succeeds, and whether the transaction is still open after it. */
  predicate RollsBack<C>(weather: Weather<C>) {
    weather.commit.RefusedActive? && weather.rollback.RolledBack?
  }

  predicate StaysActive<C>(weather: Weather<C>) {
    weather.commit.RefusedActive? && weather.rollback.FailedActive?
  }

  predicate Confirms<C(==)>(log: seq<Commit<C>>, expected: Root<C>, generation: string, readback: bool) {
    readback && Readable(log) && log[|log| - 1] == Commit(expected, Some(generation))
  }

  /** The operation, applied to the root it was fenced against, is committed once, at the next revision. */
  ghost predicate IsCommitOf<C, T>(
    log: seq<Commit<C>>, expectedRevision: int, operation: C -> Option<(C, T)>, generation: string)
  {
    && 0 <= expectedRevision
    && expectedRevision + 1 < |log|
    && operation(log[expectedRevision].root.content).Some?
    && log[expectedRevision + 1]
       == Commit(Root(expectedRevision + 1, operation(log[expectedRevision].root.content).value.0), Some(generation))
    && forall i :: 0 <= i < |log| && log[i].generation == Some(generation) ==> i == expectedRevision + 1
  }

  lemma OwnTokenIsUnused<C>(log: seq<Commit<C>>, weather: Weather<C>, generation: string)
    requires Numbered(log) && OwnToken(log, weather, generation)
    ensures !Wrote(log, generation)
    ensures
      var seen := Raced(log, weather.rivalsBefore);
      log <= seen && Numbered(seen) && !Wrote(seen, generation)
  {
    RivalsKeepTokens(log, weather.rivalsBefore, generation);
  }

  lemma LandsOnce<C, T>(
    seen: seq<Commit<C>>, landed: seq<Commit<C>>, expectedRevision: int, operation: C -> Option<(C, T)>,
    generation: string, lands: bool)
    requires Numbered(seen) && !Wrote(seen, generation)
    requires lands ==>
               && Readable(seen) && seen[|seen| - 1].root.revision == expectedRevision
               && operation(seen[|seen| - 1].root.content).Some?
    requires landed == seen + if lands
                              then [Commit(Root(expectedRevision + 1,
                                                operation(seen[|seen| - 1].root.content).value.0), Some(generation))]
                              else []
    ensures Numbered(landed) && seen <= landed
    ensures Wrote(landed, generation) <==> lands
    ensures lands ==> IsCommitOf(landed, expectedRevision, operation, generation)
  {
    if lands { assert landed[|seen|].generation == Some(generation); }
  }

  lemma RacedAfter<C, T>(
    landed: seq<Commit<C>>, start: seq<Commit<C>>, weather: Weather<C>, expectedRevision: int,
    operation: C -> Option<(C, T)>, generation: string)
    requires Numbered(landed) && OwnToken(start, weather, generation)
    ensures
      var now := Raced(landed, weather.rivalsBetween);
      && landed <= now && Numbered(now)
      && (Wrote(now, generation) <==> Wrote(landed, generation))
      && (IsCommitOf(landed, expectedRevision, operation, generation) ==>
            IsCommitOf(now, expectedRevision, operation, generation))
      && (weather.rivalsBetween == [] ==> now == landed)
  {
    RivalsKeepTokens(landed, weather.rivalsBetween, generation);
  }

  lemma ConfirmedIsWritten<C>(log: seq<Commit<C>>, expected: Root<C>, generation: string, readback: bool)
    ensures Confirms(log, expected, generation, readback) ==> Wrote(log, generation)
  {
  }

  class GaapState<C(==)> {
    const database: Database<C>

    constructor (database: Database<C>)
      ensures this.database == database
    {
      this.database := database;
    }

    /** Other processes commit, unless this connection still holds the write lock. */
    method Race(connection: Connection<C>, rivals: seq<Rival<C>>)
      requires connection.database == database
      modifies database
      ensures database.log == if connection.active then old(database.log) else Raced(old(database.log), rivals)
    {
      if !connection.active { database.log := Raced(database.log, rivals); }
    }

    /** `persistedGeneration`: a fresh connection reads the token and the root; `None` where the source throws. */
    method PersistedGeneration(generation: string, expected: Root<C>, readback: bool) returns (found: Option<bool>)
      ensures found == if !readback || !Readable(database.log) then None
                       else Some(database.log[|database.log| - 1] == Commit(expected, Some(generation)))
    {
      if !readback || !Readable(database.log) { return None; }
      var last := database.log[|database.log| - 1];
      return Some(last.generation == Some(generation) && last.root == expected);
    }

    /** The body of the `try`, up to the point where it throws. */
    method TryCommit<T>(
      connection: Connection<C>, expectedRevision: int, operation: C -> Option<(C, T)>, generation: string,
      weather: Weather<C>)
      returns (attempted: bool, committed: bool, proposed: Option<Root<C>>, value: Option<T>, threw: bool)
      requires connection.database == database
      modifies connection, database
      ensures attempted <==> Attempts(old(database.log), expectedRevision, operation, weather)
      ensures attempted ==>
                && Readable(old(database.log))
                && old(database.log)[|old(database.log)| - 1].root.revision == expectedRevision
                && var produced := operation(old(database.log)[|old(database.log)| - 1].root.content);
                && produced.Some?
                && proposed == Some(Root(expectedRevision + 1, produced.value.0))
                && value == Some(produced.value.1)
                && (connection.active <==> weather.commit.RefusedActive?)
      ensures committed <==> attempted && weather.commit.Done?
      ensures threw <==> !committed || weather.faultAfter
      ensures database.log
              == old(database.log) + if Lands(attempted, weather.commit) then [Commit(proposed.value, Some(generation))]
                                     else []
    {
      attempted, committed, proposed, value, threw := false, false, None, None, true;
      connection.Begin(weather.begins);
      if !weather.begins || !Readable(database.log) { return; }
      var root := database.log[|database.log| - 1].root;
      if root.revision != expectedRevision { return; }
      var produced := operation(root.content);
      if produced.None? { return; }
      value := Some(produced.value.1);
      root := Root(root.revision + 1, produced.value.0);
      connection.Stage(Commit(root, Some(generation)));
      proposed := Some(root);
      if weather.faultBefore { return; }
      attempted := true;
      var replied := connection.ExecCommit(weather.commit);
      if !replied { return; }
      committed := true;
      threw := weather.faultAfter;
    }

    /** The `catch`: roll back, and where that is refused after an attempted COMMIT, look through a fresh connection. */
    method Classify<T>(
      connection: Connection<C>, attempted: bool, committed: bool, proposed: Option<Root<C>>, generation: string,
      weather: Weather<C>)
      returns (failure: Outcome<T>)
      requires connection.database == database && (attempted ==> proposed.Some?)
      requires attempted ==> (connection.active <==> weather.commit.RefusedActive?)
      requires committed ==> attempted
      modifies connection, database
      ensures database.log == if !committed && attempted && !RollsBack(weather) && !StaysActive(weather)
                              then Raced(old(database.log), weather.rivalsBetween) else old(database.log)
      ensures failure == (if committed then CommittedError
                          else if !attempted || RollsBack(weather) then Failed
                          else if Confirms(database.log, proposed.value, generation, weather.readback)
                          then CommittedError else CommitUncertain)
    {
      failure := if committed then CommittedError else Failed;
      if !committed {
        var rolledBack := connection.Rollback(weather.rollback);
        if attempted && !rolledBack {
          Race(connection, weather.rivalsBetween);
          var found := PersistedGeneration(generation, proposed.value, weather.readback);
          failure := if found.GetOr(false) then CommittedError else CommitUncertain;
        }
      }
    }

    /**
     * `operation` maps the content it read to the new content and a value, or throws. Returning, or reporting a
     * committed error, means this transaction is durable, as revision `expectedRevision + 1` and nowhere else; an
     * ordinary error means it is not; only the uncertain error leaves the question open. It is raised for a durable
     * commit only when the reply was lost and so was the readback, or another process committed before it.
     */
    method Mutate<T>(
      expectedRevision: int, operation: C -> Option<(C, T)>, generation: string, weather: Weather<C>)
      returns (outcome: Outcome<T>)
      requires Numbered(database.log) && OwnToken(database.log, weather, generation)
      modifies database
      ensures Numbered(database.log) && old(database.log) <= database.log
      ensures Reported(Wrote(database.log, generation), outcome)
      ensures Wrote(database.log, generation)
              <==> Lands(Tries(old(database.log), expectedRevision, operation, weather), weather.commit)
      ensures outcome.Returned?
              <==> Tries(old(database.log), expectedRevision, operation, weather)
                   && weather.commit.Done? && !weather.faultAfter && weather.closes
      ensures Wrote(database.log, generation) ==>
                IsCommitOf(database.log, expectedRevision, operation, generation)
      ensures outcome.Returned? ==>
                outcome.value == operation(database.log[expectedRevision].root.content).value.1
      ensures outcome.CommitUncertain? && Wrote(database.log, generation) ==>
                weather.commit.ReplyLost?
                && (!weather.readback || weather.rivalsBetween != [] || !IsSafeInteger(expectedRevision + 1))
      ensures outcome.CommitUncertain? && !Wrote(database.log, generation) ==>
                weather.commit.RefusedEnded? || (weather.commit.RefusedActive? && !weather.rollback.RolledBack?)
    {
      hide Wrote, Numbered, IsCommitOf, OwnToken, Raced;
      ghost var start := database.log;
      OwnTokenIsUnused(start, weather, generation);
      if !weather.opens || database.log == [] { return Failed; }
      var connection := new Connection(database);
      Race(connection, weather.rivalsBefore);
      ghost var seen := database.log;
      var attempted, committed, proposed, value, threw :=
        TryCommit(connection, expectedRevision, operation, generation, weather);
      ghost var landed := database.log;
      LandsOnce(seen, landed, expectedRevision, operation, generation, Lands(attempted, weather.commit));
      RacedAfter(landed, start, weather, expectedRevision, operation, generation);
      var failure: Option<Outcome<T>> := None;
      if threw {
        var raised: Outcome<T> := Classify(connection, attempted, committed, proposed, generation, weather);
        failure := Some(raised);
        if attempted { ConfirmedIsWritten(database.log, proposed.value, generation, weather.readback); }
      }
      connection.Close();
      if !weather.closes && failure.None? {
        failure := Some(if committed then CommittedError else Failed);
      }
      ReadBackOwn(database.log, expectedRevision, operation, generation);
      return if failure.Some? then failure.value else Returned(value.value);
    }
  }

  /** What the last commit and the numbering say about our own commit. */
  lemma ReadBackOwn<C, T>(
    log: seq<Commit<C>>, expectedRevision: int, operation: C -> Option<(C, T)>, generation: string)
    ensures IsCommitOf(log, expectedRevision, operation, generation) ==>
              0 <= expectedRevision < |log| && operation(log[expectedRevision].root.content).Some?
  {
  }

  // ----- initialize

  /** Another process may take the path away, or put a file of its own there. */
  datatype Move<C> = Untouched | Removed | ReplacedBy(file: Database<C>)

  datatype RegistrationWeather<C> = RegistrationWeather(
    claimed: Option<Database<C>>, opens: bool, begins: bool, faultBefore: bool, commit: CommitFate,
    rollback: RollbackFate, rivalsBetween: seq<Rival<C>>, moveBetween: Move<C>, readback: bool, closes: bool,
    moveLast: Move<C>)

  datatype Registration = Registered | RegisteredWithError | RegistrationUncertain | RegistrationFailed

  /** The path `executor.sqlite`; the identity of the file it names is its device and inode. */
  class StatePath<C(==)> {
    var file: Database?<C>

    constructor ()
      ensures file == null
    {
      file := null;
    }

    method MoveFile(move: Move<C>)
      modifies this
      ensures file == match move
                      case Untouched => old(file)
                      case Removed => null
                      case ReplacedBy(other) => other
    {
      match move
      case Untouched =>
      case Removed => file := null;
      case ReplacedBy(other) => file := other;
    }

    /** Everything between creating the file and the end of its transaction. */
    method CreateTables(connection: Connection<C>, content: C, generation: string, weather: RegistrationWeather<C>)
      returns (attempted: bool, committed: bool)
      requires connection.database.log == [] && !connection.active
      modifies connection, connection.database
      ensures attempted <==> weather.begins && !weather.faultBefore
      ensures attempted ==> (connection.active <==> weather.commit.RefusedActive?)
      ensures committed <==> attempted && weather.commit.Done?
      ensures connection.database.log
              == if Lands(attempted, weather.commit) then [Commit(Root(0, content), Some(generation))] else []
    {
      attempted, committed := false, false;
      connection.Begin(weather.begins);
      if !weather.begins { return; }
      connection.Stage(Commit(Root(0, content), Some(generation)));
      if weather.faultBefore { return; }
      attempted := true;
      committed := connection.ExecCommit(weather.commit);
    }

    /** The reply was lost: look for our token through the path, whatever it names by now. */
    method Resolve(connection: Connection<C>, content: C, generation: string, weather: RegistrationWeather<C>)
      returns (confirmed: bool)
      requires file == connection.database && !RivalUses(weather.rivalsBetween, generation)
      requires weather.moveBetween.ReplacedBy? ==>
                 weather.moveBetween.file != file && !Wrote(weather.moveBetween.file.log, generation)
      modifies this, connection.database
      ensures connection.database.log
              == if connection.active then old(connection.database.log)
                 else Raced(old(connection.database.log), weather.rivalsBetween)
      ensures weather.moveBetween.Untouched? ==> file == connection.database
      ensures confirmed ==> file == connection.database && old(connection.database.log) != []
      ensures weather.readback && weather.rivalsBetween == [] && weather.moveBetween.Untouched? ==>
                (old(connection.database.log) == [Commit(Root(0, content), Some(generation))] ==> confirmed)
    {
      var own := new GaapState(connection.database);
      own.Race(connection, weather.rivalsBetween);
      RivalsKeepTokens(old(connection.database.log), weather.rivalsBetween, generation);
      MoveFile(weather.moveBetween);
      if file == null { return false; }
      var state := new GaapState(file);
      var found := state.PersistedGeneration(generation, Root(0, content), weather.readback);
      confirmed := found.GetOr(false);
    }

    /**
     * The file is created exclusively, so an existing one, or one claimed in between, is left alone. `path` is what
     * the path names when the outcome is known: it is cleared only when it still names the file created here and
     * nothing was ever committed there. A reported registration is durable; a durable one is reported as an ordinary
     * error exactly when closing the connection fails.
     */
    method Initialize(content: C, generation: string, weather: RegistrationWeather<C>)
      returns (outcome: Registration, ghost created: Database?<C>, ghost path: Database?<C>)
      requires weather.moveBetween.ReplacedBy? ==> !Wrote(weather.moveBetween.file.log, generation)
      requires !RivalUses(weather.rivalsBetween, generation)
      modifies this
      ensures created != null <==> old(file) == null && weather.claimed.None?
      ensures created != null ==>
                (created.log != []
                 <==> weather.opens && Lands(weather.begins && !weather.faultBefore, weather.commit))
      ensures created == null ==> outcome.RegistrationFailed?
      ensures created == null ==> file == if old(file) != null then old(file)
                                          else if weather.claimed.Some? then weather.claimed.value else null
      ensures created != null ==> fresh(created) && old(file) == null && weather.claimed.None? && Numbered(created.log)
      ensures created != null && created.log != [] ==>
                created.log[0] == Commit(Root(0, content), Some(generation))
      ensures outcome.Registered?
              <==> created != null && created.log != [] && weather.commit.Done? && weather.closes
      ensures outcome.Registered? || outcome.RegisteredWithError? ==> created != null && created.log != []
      ensures outcome.RegistrationUncertain? && created.log != [] ==>
                weather.commit.ReplyLost?
                && (!weather.readback || weather.rivalsBetween != [] || !weather.moveBetween.Untouched?)
      ensures outcome.RegistrationUncertain? && created.log == [] ==>
                weather.commit.RefusedEnded? || (weather.commit.RefusedActive? && !weather.rollback.RolledBack?)
      ensures created != null && created.log != [] ==> (outcome.RegistrationFailed? <==> !weather.closes)
      ensures created != null && path == created && created.log != [] ==> file == created
      ensures created != null && path != created ==> file == path
      ensures created != null && path == created && outcome.RegistrationFailed? && weather.closes ==> file == null
      ensures created != null && weather.moveBetween.Untouched? && weather.moveLast.Untouched? ==> path == created
    {
      created, path := null, null;
      if file != null { return RegistrationFailed, null, null; }
      if weather.claimed.Some? {
        file := weather.claimed.value;
        return RegistrationFailed, null, null;
      }
      var mine := new Database<C>();
      file, created := mine, mine;
      var committed, retain := false, false;
      outcome := RegistrationFailed;
      if weather.opens {
        var connection := new Connection(mine);
        var attempted;
        attempted, committed := CreateTables(connection, content, generation, weather);
        if committed {
          outcome := Registered;
        } else {
          var rolledBack := connection.Rollback(weather.rollback);
          if attempted && !rolledBack {
            retain := true;
            committed := Resolve(connection, content, generation, weather);
            outcome := if committed then RegisteredWithError else RegistrationUncertain;
          }
        }
        connection.Close();
      }
      MoveFile(weather.moveLast);
      path := file;
      if !committed && !retain && file == mine { file := null; }
      if weather.opens && !weather.closes { outcome := RegistrationFailed; }
    }
  }
}

/**
 * The supervised executor process of src/adapters/process/gaap-runner.ts: an event machine whose handlers may run in
 * any order the runtime chooses.
 */
module ProcessSupervisor {
  import opened Options

  type Byte = b: int | 0 <= b < 256

  datatype Status =
    | Ok
    | Timeout
    | Cancelled
    | ExitFailed
    | SpawnFailed
    | InputFailed
    | OutputLimit
    | IoFailed
    | CleanupFailed

  datatype Stream = Stdout | Stderr

  const STDOUT_LIMIT := 16 * 1024 * 1024 + 1

  const STDERR_LIMIT := 64 * 1024

  datatype Result = Result(
    status: Status, stdout: seq<Byte>, stderr: seq<Byte>, exitCode: Option<int>, signal: Option<string>,
    inputDelivered: bool)

  /** `signalled` is whether the process group could be signalled, or was already gone. */
  datatype Event =
    | Data(stream: Stream, chunk: seq<Byte>, signalled: bool)
    | StreamError(stream: Stream, signalled: bool)
    | StdinFinish
    | StdinError(signalled: bool)
    | ChildError
    | Exit(code: Option<int>, signal: Option<string>, signalled: bool)
    | Close
    | TimeoutFires(signalled: bool)
    | ForceFires(signalled: bool)
    | DrainFires(signalled: bool)
    | Abort(signalled: bool)

  /** The first `limit` bytes of what arrived. */
  function Bounded(received: seq<Byte>, limit: nat): seq<Byte> {
    if |received| <= limit then received else received[..limit]
  }

  /** What one delivered result promises, given everything received and the causes raised before it, oldest first. */
  ghost predicate Truthful(result: Result, out: seq<Byte>, err: seq<Byte>, causes: seq<Status>, cleanup: bool) {
    && result.stdout == Bounded(out, STDOUT_LIMIT)
    && result.stderr == Bounded(err, STDERR_LIMIT)
    && result.status == (if cleanup then CleanupFailed
                         else if causes != [] then causes[0]
                         else if !result.inputDelivered then InputFailed
                         else if result.exitCode != Some(0) || result.signal.Some? then ExitFailed
                         else Ok)
    && (result.status.Ok? ==>
          && result.inputDelivered && result.exitCode == Some(0) && result.signal.None?
          && result.stdout == out && result.stderr == err)
  }

  class Supervisor {
    var status: Status
    var inputDelivered: bool
    var exitCode: Option<int>
    var signal: Option<string>
    var finished: bool
    var cleanupError: bool
    var timeoutArmed: bool
    var forceSet: bool
    var drainSet: bool
    var timersCleared: bool
    var stdout: seq<Byte>
    var stderr: seq<Byte>
    var stdoutSize: nat
    var stderrSize: nat
    var delivered: seq<Result>

    /** Everything the streams delivered before the result, and every cause of failure raised before it. */
    ghost var out: seq<Byte>
    ghost var err: seq<Byte>
    ghost var causes: seq<Status>

    ghost predicate Valid()
      reads this
    {
      && |delivered| == (if finished then 1 else 0)
      && stdout == Bounded(out, STDOUT_LIMIT) && stdoutSize == |out|
      && stderr == Bounded(err, STDERR_LIMIT) && stderrSize == |err|
      && AreCauses(causes)
      && (!finished ==>
            && status == (if causes == [] then Ok else causes[0])
            && !timersCleared
            && (forceSet <==> ForceArmed(causes))
            && (stdoutSize > STDOUT_LIMIT || stderrSize > STDERR_LIMIT ==> causes != []))
      && (finished ==> exists cleanup :: Truthful(delivered[0], out, err, causes, cleanup))
    }

    constructor ()
      ensures Valid() && !finished && out == [] && err == [] && causes == []
      ensures !inputDelivered && exitCode.None? && signal.None? && timeoutArmed && !drainSet && !cleanupError
    {
      status, inputDelivered, exitCode, signal, finished := Ok, false, None, None, false;
      cleanupError, timeoutArmed, forceSet, drainSet, timersCleared := false, true, false, false, false;
      stdout, stderr, stdoutSize, stderrSize, delivered := [], [], 0, 0, [];
      out, err, causes := [], [], [];
    }

    /** Delivers the result once. A pending cleanup error outranks every other cause. */
    method Finish(drained: bool)
      requires if drained then status == CleanupFailed else true
      requires |delivered| == (if finished then 1 else 0)
      requires stdout == Bounded(out, STDOUT_LIMIT) && stderr == Bounded(err, STDERR_LIMIT)
      requires !finished && !drained ==>
                 && status == (if causes == [] then Ok else causes[0])
                 && (|out| > STDOUT_LIMIT || |err| > STDERR_LIMIT ==> causes != [])
                 && AreCauses(causes)
      modifies this`finished, this`timersCleared, this`status, this`delivered
      ensures finished && |delivered| == 1
      ensures old(finished) ==> delivered == old(delivered)
      ensures !old(finished) ==> Truthful(delivered[0], out, err, causes, drained || cleanupError)
      ensures !old(finished) ==>
                && delivered[0].exitCode == exitCode && delivered[0].signal == signal
                && delivered[0].inputDelivered == inputDelivered
    {
      if finished { return; }
      finished := true;
      timersCleared := true;
      if cleanupError { status := CleanupFailed; }
      if status == Ok && !inputDelivered { status := InputFailed; }
      if status == Ok && (exitCode != Some(0) || signal.Some?) { status := ExitFailed; }
      delivered := delivered + [Result(status, stdout, stderr, exitCode, signal, inputDelivered)];
    }

    method BoundedDrain()
      modifies this`drainSet
      ensures drainSet
    {
      drainSet := true;
    }

    /** The first cause is kept; the group is signalled again every time. */
    method Terminate(reason: Status, signalled: bool)
      requires reason !in {Ok, SpawnFailed, CleanupFailed} && !finished
      requires status == (if causes == [] then Ok else causes[0]) && AreCauses(causes)
      modifies this`status, this`cleanupError, this`forceSet, this`drainSet, this`causes
      ensures causes == old(causes) + [reason] && AreCauses(causes)
      ensures status == causes[0]
      ensures forceSet && ForceArmed(causes) && drainSet
      ensures cleanupError == (old(cleanupError) || !signalled)
    {
      if status == Ok { status := reason; }
      causes := causes + [reason];
      if !signalled { cleanupError := true; }
      forceSet := true;
      BoundedDrain();
      assert causes[|causes| - 1] == reason && reason in causes;
    }

    /** Keeps what fits under the limit, counts everything, and terminates on the first byte too many. */
    method OnStdout(chunk: seq<Byte>, signalled: bool)
      requires Valid()
      modifies this`stdout, this`stdoutSize, this`out, this`status, this`causes, this`cleanupError, this`forceSet,
        this`drainSet
      ensures Valid()
      ensures finished ==> out == old(out) && causes == old(causes)
      ensures !finished ==>
                && out == old(out) + chunk
                && causes == old(causes) + (if |out| > STDOUT_LIMIT then [OutputLimit] else [])
                && drainSet == (old(drainSet) || |out| > STDOUT_LIMIT)
                && cleanupError == (old(cleanupError) || (|out| > STDOUT_LIMIT && !signalled))
    {
      if finished { return; }
      hide Bounded, Truthful;
      stdout := Retain(stdout, stdoutSize, chunk, STDOUT_LIMIT, out);
      stdoutSize, out := stdoutSize + |chunk|, out + chunk;
      if stdoutSize > STDOUT_LIMIT { Terminate(OutputLimit, signalled); }
    }

    method OnStderr(chunk: seq<Byte>, signalled: bool)
      requires Valid()
      modifies this`stderr, this`stderrSize, this`err, this`status, this`causes, this`cleanupError, this`forceSet,
        this`drainSet
      ensures Valid()
      ensures finished ==> err == old(err) && causes == old(causes)
      ensures !finished ==>
                && err == old(err) + chunk
                && causes == old(causes) + (if |err| > STDERR_LIMIT then [OutputLimit] else [])
                && drainSet == (old(drainSet) || |err| > STDERR_LIMIT)
                && cleanupError == (old(cleanupError) || (|err| > STDERR_LIMIT && !signalled))
    {
      if finished { return; }
      hide Bounded, Truthful;
      stderr := Retain(stderr, stderrSize, chunk, STDERR_LIMIT, err);
      stderrSize, err := stderrSize + |chunk|, err + chunk;
      if stderrSize > STDERR_LIMIT { Terminate(OutputLimit, signalled); }
    }

    /** A late failure of a stream, the input or the authority changes nothing. */
    method OnFailure(reason: Status, signalled: bool)
      requires Valid() && reason !in {Ok, SpawnFailed, CleanupFailed}
      modifies this`status, this`cleanupError, this`forceSet, this`drainSet, this`causes
      ensures Valid()
      ensures causes == old(causes) + if finished then [] else [reason]
      ensures !finished ==> drainSet && cleanupError == (old(cleanupError) || !signalled)
    {
      if finished { return; }
      Terminate(reason, signalled);
    }

    method OnChildError()
      requires Valid()
      modifies this`status, this`drainSet, this`causes
      ensures Valid()
      ensures causes == old(causes) + if finished then [] else [SpawnFailed]
      ensures drainSet
    {
      if status == Ok { status := SpawnFailed; }
      if !finished {
        ArmedByOthers(causes);
        causes := causes + [SpawnFailed];
      }
      BoundedDrain();
    }

    /** The leader is gone: its group must go too, and doing so settles an earlier failure to signal it. */
    method OnExit(code: Option<int>, value: Option<string>, signalled: bool)
      requires Valid()
      modifies this`exitCode, this`signal, this`cleanupError, this`drainSet
      ensures Valid()
      ensures exitCode == code && signal == value && cleanupError == !signalled && drainSet
    {
      exitCode, signal := code, value;
      cleanupError := !signalled;
      BoundedDrain();
    }

    method OnClose()
      requires Valid()
      modifies this`finished, this`timersCleared, this`status, this`delivered
      ensures Valid() && finished
      ensures old(finished) ==> delivered == old(delivered)
      ensures !old(finished) ==> Truthful(delivered[0], out, err, causes, cleanupError) && Snapshot()
    {
      hide Bounded;
      Finish(false);
    }

    /** The delivered result reports the exit and the input as they stand. */
    ghost predicate Snapshot()
      reads this
    {
      && |delivered| == 1 && delivered[0].exitCode == exitCode && delivered[0].signal == signal
      && delivered[0].inputDelivered == inputDelivered
    }

    /** The process or its pipes outlived the cleanup deadline. */
    method OnDrainFires()
      requires Valid()
      modifies this`finished, this`timersCleared, this`status, this`delivered
      ensures Valid()
      ensures finished <==> old(finished) || (drainSet && !old(timersCleared))
      ensures old(finished) ==> delivered == old(delivered)
      ensures !old(finished) && finished ==> Truthful(delivered[0], out, err, causes, true) && Snapshot()
    {
      hide Bounded;
      if !drainSet || timersCleared { return; }
      status := CleanupFailed;
      Finish(true);
    }

    method OnForceFires(signalled: bool)
      requires Valid()
      modifies this`cleanupError
      ensures Valid()
      ensures !finished ==> cleanupError == (old(cleanupError) || (ForceArmed(causes) && !signalled))
    {
      if !forceSet || timersCleared { return; }
      if !signalled { cleanupError := true; }
    }

    /** The deadline timer fires once, and not after it was cleared. */
    method OnTimeoutFires(signalled: bool)
      requires Valid()
      modifies this`timeoutArmed, this`status, this`cleanupError, this`forceSet, this`drainSet, this`causes
      ensures Valid()
      ensures causes == old(causes) + if finished || !old(timeoutArmed) then [] else [Timeout]
      ensures !finished ==>
                && !timeoutArmed
                && drainSet == (old(drainSet) || old(timeoutArmed))
                && cleanupError == (old(cleanupError) || (old(timeoutArmed) && !signalled))
    {
      if !timeoutArmed || timersCleared { return; }
      timeoutArmed := false;
      OnFailure(Timeout, signalled);
    }

    method OnStdinFinish()
      requires Valid()
      modifies this`inputDelivered
      ensures Valid() && inputDelivered
    {
      inputDelivered := true;
    }

    /** What one event does to a run that has not finished; a delivered result never changes again. */
    twostate predicate Took(e: Event)
      reads this
    {
      if old(finished) then finished && delivered == old(delivered)
      else
        && out == old(out) + Chunk(e, Stdout) && err == old(err) + Chunk(e, Stderr)
        && causes == old(causes) + CauseOf(e, old(|out|), old(|err|), old(timeoutArmed))
        && timeoutArmed == (old(timeoutArmed) && !e.TimeoutFires?)
        && inputDelivered == (old(inputDelivered) || e.StdinFinish?)
        && (exitCode, signal) == (if e.Exit? then (e.code, e.signal) else old((exitCode, signal)))
        && cleanupError == CleanupAfter(e, old(cleanupError), old(causes), causes)
        && drainSet == (old(drainSet) || e.Exit? || causes != old(causes))
        && (finished <==> e.Close? || (e.DrainFires? && drainSet))
        && (finished ==> Snapshot() && Truthful(delivered[0], out, err, causes, e.DrainFires? || cleanupError))
    }

    method HandleStream(e: Event)
      requires Valid() && (e.Data? || e.StreamError? || e.StdinFinish? || e.StdinError?)
      modifies this
      ensures Valid() && Took(e)
    {
      hide Bounded, Truthful;
      match e
      case Data(stream, chunk, signalled) =>
        if stream == Stdout { OnStdout(chunk, signalled); } else { OnStderr(chunk, signalled); }
      case StreamError(_, signalled) => OnFailure(IoFailed, signalled);
      case StdinFinish => OnStdinFinish();
      case StdinError(signalled) => OnFailure(InputFailed, signalled);
    }

    method HandleTimer(e: Event)
      requires Valid() && (e.TimeoutFires? || e.ForceFires? || e.DrainFires?)
      modifies this
      ensures Valid() && Took(e)
    {
      hide Bounded, Truthful;
      match e
      case TimeoutFires(signalled) => OnTimeoutFires(signalled);
      case ForceFires(signalled) => OnForceFires(signalled);
      case DrainFires(_) => OnDrainFires();
    }

    method Handle(e: Event)
      requires Valid()
      modifies this
      ensures Valid() && Took(e)
    {
      hide Bounded, Truthful;
      match e
      case ChildError => OnChildError();
      case Exit(code, value, signalled) => OnExit(code, value, signalled);
      case Close => OnClose();
      case Abort(signalled) => OnFailure(Cancelled, signalled);
      case TimeoutFires(_) | ForceFires(_) | DrainFires(_) => HandleTimer(e);
      case _ => HandleStream(e);
    }

    /** While running, the state is what the events seen so far add up to; once finished, the result explains them. */
    ghost predicate Tracks(seen: seq<Event>, abort: Option<bool>)
      reads this
    {
      if finished then
        |delivered| == 1 && exists k :: Explains(delivered[0], seen, abort, k)
      else
        && out == Received(seen, Stdout) && err == Received(seen, Stderr)
        && (exitCode, signal) == LastExit(seen)
        && (inputDelivered <==> exists i :: 0 <= i < |seen| && seen[i].StdinFinish?)
        && causes == Causes(seen, abort.Some?)
        && (timeoutArmed <==> forall i :: 0 <= i < |seen| ==> !seen[i].TimeoutFires?)
        && (drainSet <==> DrainArmed(seen, abort.Some?))
        && cleanupError == Unsettled(seen, abort)
        && (forall i :: 0 <= i < |seen| ==> !Ends(seen, abort.Some?, i))
    }

    method Advance(e: Event, ghost seen: seq<Event>, ghost abort: Option<bool>)
      requires Valid() && Tracks(seen, abort)
      modifies this
      ensures Valid() && Tracks(seen + [e], abort)
    {
      hide Bounded, Received, LastExit, Truthful, Causes, Unsettled, CauseOf, CleanupAfter, DrainArmed, Ends,
        Explains;
      SeenExtends(seen, e, abort);
      DrainArmedExtends(seen, e, abort.Some?);
      ghost var wasFinished := finished;
      ghost var result := if finished then delivered[0] else Result(Ok, [], [], None, None, false);
      if e.Close? || e.DrainFires? { EndsAddNothing(seen, e, abort); }
      ReceivedExtends(seen, e, abort);
      Handle(e);
      if wasFinished {
        assert delivered[0] == result;
        var k :| Explains(result, seen, abort, k);
        ExplainsLater(result, seen, abort, e, k);
      } else if finished {
        FinishExplains(seen, e, abort);
      }
    }

    lemma FinishExplains(seen: seq<Event>, e: Event, abort: Option<bool>)
      requires finished && Snapshot() && Ends(seen + [e], abort.Some?, |seen|)
      requires forall i :: 0 <= i < |seen| ==> !Ends(seen + [e], abort.Some?, i)
      requires Truthful(delivered[0], out, err, causes, e.DrainFires? || Unsettled(seen, abort))
      requires out == Received(seen, Stdout) && err == Received(seen, Stderr)
      requires (exitCode, signal) == LastExit(seen) && causes == Causes(seen, abort.Some?) && AreCauses(causes)
      requires inputDelivered <==> exists i :: 0 <= i < |seen| && seen[i].StdinFinish?
      ensures Explains(delivered[0], seen + [e], abort, |seen|)
    {
      hide Bounded, Received, LastExit, Causes, Unsettled, Ends;
      assert (seen + [e])[..|seen|] == seen;
    }
  }

  // ----- what a sequence of events amounts to

  function Chunk(e: Event, stream: Stream): seq<Byte> {
    if e.Data? && e.stream == stream then e.chunk else []
  }

  function Received(events: seq<Event>, stream: Stream): seq<Byte> {
    if events == [] then []
    else Received(events[..|events| - 1], stream) + Chunk(events[|events| - 1], stream)
  }

  /** The cause of failure one event raises, given what had arrived and whether the deadline was still pending. */
  function CauseOf(e: Event, stdoutSize: nat, stderrSize: nat, timeoutArmed: bool): seq<Status> {
    match e
    case Data(stream, chunk, _) =>
      if (stream == Stdout && stdoutSize + |chunk| > STDOUT_LIMIT)
         || (stream == Stderr && stderrSize + |chunk| > STDERR_LIMIT) then [OutputLimit] else []
    case StreamError(_, _) => [IoFailed]
    case StdinError(_) => [InputFailed]
    case ChildError => [SpawnFailed]
    case TimeoutFires(_) => if timeoutArmed then [Timeout] else []
    case Abort(_) => [Cancelled]
    case _ => []
  }

  /** Every cause of failure, oldest first. */
  function Causes(events: seq<Event>, aborted: bool): seq<Status> {
    if events == [] then if aborted then [Cancelled] else []
    else
      var before := events[..|events| - 1];
      Causes(before, aborted)
      + CauseOf(events[|events| - 1], |Received(before, Stdout)|, |Received(before, Stderr)|,
                forall i :: 0 <= i < |before| ==> !before[i].TimeoutFires?)
  }

  /** Failures of the run itself; a failed cleanup is no cause. */
  predicate AreCauses(causes: seq<Status>) {
    Ok !in causes && CleanupFailed !in causes
  }

  /** Some failure has made the supervisor signal the group, and so armed the forced kill. */
  predicate ForceArmed(causes: seq<Status>) {
    exists c :: c in causes && c != SpawnFailed
  }

  lemma ArmedByOthers(causes: seq<Status>)
    ensures ForceArmed(causes + [SpawnFailed]) <==> ForceArmed(causes)
  {
    assert forall c :: c in causes + [SpawnFailed] <==> c in causes || c == SpawnFailed;
  }

  /** The drain deadline runs from the first failure, or from the exit. */
  predicate DrainArmed(events: seq<Event>, aborted: bool) {
    Causes(events, aborted) != [] || exists i :: 0 <= i < |events| && events[i].Exit?
  }

  /** The events that deliver a result: the pipes are closed, or the drain deadline passes. */
  predicate Ends(events: seq<Event>, aborted: bool, k: int)
    requires 0 <= k < |events|
  {
    events[k].Close? || (events[k].DrainFires? && DrainArmed(events[..k], aborted))
  }

  /** What one event leaves of a failure to signal the group; only the exit settles an earlier one. */
  predicate CleanupAfter(e: Event, failing: bool, causes: seq<Status>, after: seq<Status>) {
    match e
    case Exit(_, _, signalled) => !signalled
    case ForceFires(signalled) => failing || (ForceArmed(causes) && !signalled)
    case ChildError | Close | StdinFinish | DrainFires(_) => failing
    case _ => failing || (after != causes && !e.signalled)
  }

  /** A signal to the group failed, and no exit has settled it since. */
  predicate Unsettled(events: seq<Event>, abort: Option<bool>) {
    if events == [] then abort == Some(false)
    else
      var before := events[..|events| - 1];
      CleanupAfter(
        events[|events| - 1], Unsettled(before, abort), Causes(before, abort.Some?), Causes(events, abort.Some?))
  }

  function LastExit(events: seq<Event>): (Option<int>, Option<string>) {
    if events == [] then (None, None)
    else
      var last := events[|events| - 1];
      if last.Exit? then (last.code, last.signal) else LastExit(events[..|events| - 1])
  }

  /**
   * The result was delivered on event `k`, the first that ends the run, and says what the events before it add up to:
   * a failed cleanup, then the first cause of failure, then undelivered input, then a bad exit.
   */
  ghost predicate Explains(result: Result, events: seq<Event>, abort: Option<bool>, k: int) {
    && 0 <= k < |events|
    && Ends(events, abort.Some?, k)
    && (forall i :: 0 <= i < k ==> !Ends(events, abort.Some?, i))
    && result.stdout == Bounded(Received(events[..k], Stdout), STDOUT_LIMIT)
    && result.stderr == Bounded(Received(events[..k], Stderr), STDERR_LIMIT)
    && (result.exitCode, result.signal) == LastExit(events[..k])
    && (result.inputDelivered <==> exists i :: 0 <= i < k && events[i].StdinFinish?)
    && (result.status == CleanupFailed <==> events[k].DrainFires? || Unsettled(events[..k], abort))
    && var causes := Causes(events[..k], abort.Some?);
    && (result.status != CleanupFailed ==>
          result.status == if causes != [] then causes[0]
                           else if !result.inputDelivered then InputFailed
                           else if LastExit(events[..k]) != (Some(0), None) then ExitFailed
                           else Ok)
    && (result.status.Ok? ==>
          && causes == []
          && result.stdout == Received(events[..k], Stdout) && result.stderr == Received(events[..k], Stderr))
  }

  /** Keeps what still fits under the limit. */
  method Retain(kept: seq<Byte>, size: nat, chunk: seq<Byte>, limit: nat, ghost received: seq<Byte>)
    returns (more: seq<Byte>)
    requires kept == Bounded(received, limit) && size == |received|
    ensures more == Bounded(received + chunk, limit)
  {
    var available := if size < limit then limit - size else 0;
    more := if available > 0 then kept + (if |chunk| <= available then chunk else chunk[..available]) else kept;
  }

  /** What can stop a run before anything is spawned; an abort can still race the spawn, its group signalled or not. */
  datatype Start = AlreadyAborted | DeadlinePassed | SpawnThrew | Spawned(abort: Option<bool>)

  lemma ExplainsLater(result: Result, seen: seq<Event>, abort: Option<bool>, e: Event, k: int)
    requires Explains(result, seen, abort, k)
    ensures Explains(result, seen + [e], abort, k)
  {
    hide Bounded, Received, LastExit, Causes, Unsettled, Ends;
    assert (seen + [e])[..k] == seen[..k];
    EndsLater(seen, e, abort.Some?);
  }

  lemma EndsLater(seen: seq<Event>, e: Event, aborted: bool)
    ensures forall i :: 0 <= i < |seen| ==> (Ends(seen + [e], aborted, i) <==> Ends(seen, aborted, i))
    ensures Ends(seen + [e], aborted, |seen|) <==> e.Close? || (e.DrainFires? && DrainArmed(seen, aborted))
  {
    hide DrainArmed;
    forall i | 0 <= i <= |seen| ensures (seen + [e])[..i] == seen[..i] {
    }
    assert seen[..|seen|] == seen;
  }

  lemma SeenExtends(seen: seq<Event>, e: Event, abort: Option<bool>)
    ensures
      var longer := seen + [e];
      && ((exists i :: 0 <= i < |longer| && longer[i].StdinFinish?)
          <==> (exists i :: 0 <= i < |seen| && seen[i].StdinFinish?) || e.StdinFinish?)
      && ((forall i :: 0 <= i < |longer| ==> !longer[i].TimeoutFires?)
          <==> (forall i :: 0 <= i < |seen| ==> !seen[i].TimeoutFires?) && !e.TimeoutFires?)
      && (forall i :: 0 <= i < |seen| ==> (Ends(longer, abort.Some?, i) <==> Ends(seen, abort.Some?, i)))
      && (Ends(longer, abort.Some?, |seen|) <==> e.Close? || (e.DrainFires? && DrainArmed(seen, abort.Some?)))
  {
    hide DrainArmed, Ends;
    var longer := seen + [e];
    assert longer[|seen|] == e && forall i :: 0 <= i < |seen| ==> longer[i] == seen[i];
    EndsLater(seen, e, abort.Some?);
  }

  lemma DrainArmedExtends(seen: seq<Event>, e: Event, aborted: bool)
    ensures DrainArmed(seen + [e], aborted)
            <==> DrainArmed(seen, aborted) || e.Exit? || Causes(seen + [e], aborted) != Causes(seen, aborted)
  {
    hide CauseOf, Received;
    var longer := seen + [e];
    assert longer[|seen|] == e && forall i :: 0 <= i < |seen| ==> longer[i] == seen[i];
    assert longer[..|seen|] == seen;
  }

  /** The events that can end a run raise no failure, deliver nothing and signal nothing. */
  lemma EndsAddNothing(seen: seq<Event>, e: Event, abort: Option<bool>)
    requires e.Close? || e.DrainFires?
    ensures Causes(seen + [e], abort.Some?) == Causes(seen, abort.Some?)
    ensures Unsettled(seen + [e], abort) == Unsettled(seen, abort)
    ensures Received(seen + [e], Stdout) == Received(seen, Stdout)
    ensures Received(seen + [e], Stderr) == Received(seen, Stderr)
  {
    assert (seen + [e])[..|seen|] == seen;
  }

  lemma ReceivedExtends(seen: seq<Event>, e: Event, abort: Option<bool>)
    ensures forall stream :: Received(seen + [e], stream) == Received(seen, stream) + Chunk(e, stream)
    ensures LastExit(seen + [e]) == if e.Exit? then (e.code, e.signal) else LastExit(seen)
    ensures Causes(seen + [e], abort.Some?)
            == Causes(seen, abort.Some?)
               + CauseOf(e, |Received(seen, Stdout)|, |Received(seen, Stderr)|,
                         forall i :: 0 <= i < |seen| ==> !seen[i].TimeoutFires?)
    ensures Unsettled(seen + [e], abort)
            == CleanupAfter(e, Unsettled(seen, abort), Causes(seen, abort.Some?), Causes(seen + [e], abort.Some?))
  {
    hide CleanupAfter, CauseOf;
    assert (seen + [e])[..|seen|] == seen;
  }

  /**
   * `runGaapProcess`, over any sequence of events: one result, delivered on the first closing or drain deadline.
   * What it retains is what had arrived by then, cut at the limits; `Ok` means that the process exited 0 without a
   * signal, that the whole input was delivered, that nothing failed, and that nothing received was dropped.
   */
  method RunGaapProcess(start: Start, events: seq<Event>) returns (result: Option<Result>)
    ensures start.AlreadyAborted? ==> result == Some(Result(Cancelled, [], [], None, None, false))
    ensures start.DeadlinePassed? ==> result == Some(Result(Timeout, [], [], None, None, false))
    ensures start.SpawnThrew? ==> result == Some(Result(SpawnFailed, [], [], None, None, false))
    ensures start.Spawned? ==>
              match result
              case None => forall i :: 0 <= i < |events| ==> !Ends(events, start.abort.Some?, i)
              case Some(r) => exists k :: Explains(r, events, start.abort, k)
  {
    match start
    case AlreadyAborted => return Some(Result(Cancelled, [], [], None, None, false));
    case DeadlinePassed => return Some(Result(Timeout, [], [], None, None, false));
    case SpawnThrew => return Some(Result(SpawnFailed, [], [], None, None, false));
    case Spawned(abort) =>
      hide Received, LastExit, Causes, Unsettled, Ends, Explains, Bounded, Truthful, DrainArmed;
      var supervisor := Spawn(abort);
      assert events[..0] == [];
      for n := 0 to |events|
        invariant supervisor.Valid() && fresh(supervisor) && supervisor.Tracks(events[..n], abort)
      {
        assert events[..n + 1] == events[..n] + [events[n]];
        supervisor.Advance(events[n], events[..n], abort);
      }
      assert events[..|events|] == events;
      return if supervisor.finished then Some(supervisor.delivered[0]) else None;
  }

  /** A running supervisor, which an abort may have reached before its first event. */
  method Spawn(abort: Option<bool>) returns (supervisor: Supervisor)
    ensures fresh(supervisor) && supervisor.Valid() && supervisor.Tracks([], abort)
  {
    hide Received, LastExit, Causes, Unsettled, Bounded, Truthful, DrainArmed;
    supervisor := new Supervisor();
    NothingReceived(abort);
    if abort.Some? { supervisor.OnFailure(Cancelled, abort.value); }
  }

  lemma NothingReceived(abort: Option<bool>)
    ensures Causes([], abort.Some?) == if abort.Some? then [Cancelled] else []
    ensures Unsettled([], abort) == (abort == Some(false))
    ensures DrainArmed([], abort.Some?) == abort.Some?
    ensures Received([], Stdout) == [] && Received([], Stderr) == [] && LastExit([]) == (None, None)
  {
  }
}

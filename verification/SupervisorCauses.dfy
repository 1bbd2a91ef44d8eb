/** The status of a supervised run, read off the events: the first failure, the signals that missed, the last exit. */
module SupervisorCauses {
  import opened Options
  import opened ProcessSupervisor

  function LimitOf(stream: Stream): nat {
    if stream == Stdout then STDOUT_LIMIT else STDERR_LIMIT
  }

  /** Event `i` is a failure of the run. Only the first deadline is one, and output only once it exceeds its limit. */
  predicate Fails(events: seq<Event>, i: int)
    requires 0 <= i < |events|
  {
    match events[i]
    case Data(stream, _, _) => |Received(events[..i + 1], stream)| > LimitOf(stream)
    case TimeoutFires(_) => forall j :: 0 <= j < i ==> !events[j].TimeoutFires?
    case StreamError(_, _) | StdinError(_) | ChildError | Abort(_) => true
    case _ => false
  }

  function Reason(e: Event): Status {
    match e
    case Data(_, _, _) => OutputLimit
    case TimeoutFires(_) => Timeout
    case StreamError(_, _) => IoFailed
    case StdinError(_) => InputFailed
    case ChildError => SpawnFailed
    case _ => Cancelled
  }

  predicate FirstFailure(events: seq<Event>, i: int) {
    0 <= i < |events| && Fails(events, i) && forall j :: 0 <= j < i ==> !Fails(events, j)
  }

  /** Something failed, and the process group was told. */
  predicate Told(events: seq<Event>, aborted: bool) {
    aborted || exists i :: 0 <= i < |events| && Fails(events, i) && !events[i].ChildError?
  }

  /** At event `j` the process group should have been signalled, and could not be. */
  predicate Missed(events: seq<Event>, aborted: bool, j: int)
    requires 0 <= j < |events|
  {
    match events[j]
    case Exit(_, _, signalled) => !signalled
    case ForceFires(signalled) => !signalled && Told(events[..j], aborted)
    case ChildError | Close | StdinFinish | DrainFires(_) => false
    case _ => !events[j].signalled && Fails(events, j)
  }

  predicate NoExitFrom(events: seq<Event>, from: int) {
    forall j :: 0 <= from <= j < |events| ==> !events[j].Exit?
  }

  /** Some signal missed the group, and no exit has settled it since. */
  predicate GroupLeft(events: seq<Event>, abort: Option<bool>) {
    || (abort == Some(false) && NoExitFrom(events, 0))
    || exists j :: 0 <= j < |events| && Missed(events, abort.Some?, j) && NoExitFrom(events, j + 1)
  }

  lemma FailsLater(events: seq<Event>, e: Event)
    ensures forall i :: 0 <= i < |events| ==> (Fails(events + [e], i) <==> Fails(events, i))
    ensures Fails(events + [e], |events|)
            <==> CauseOf(e, |Received(events, Stdout)|, |Received(events, Stderr)|,
                         forall i :: 0 <= i < |events| ==> !events[i].TimeoutFires?) != []
  {
    hide Received;
    var longer := events + [e];
    forall i | 0 <= i < |events| ensures Fails(longer, i) <==> Fails(events, i) {
      assert longer[..i + 1] == events[..i + 1];
    }
    assert longer[..|events| + 1] == longer;
    forall stream: Stream | true
      ensures |Received(longer, stream)| == |Received(events, stream)| + |Chunk(e, stream)|
    {
      ReceivedExtends(events, e, None);
    }
    assert longer[|events|] == e && forall j :: 0 <= j < |events| ==> longer[j] == events[j];
  }

  lemma ArmedByEither(causes: seq<Status>, more: seq<Status>)
    ensures ForceArmed(causes + more) <==> ForceArmed(causes) || ForceArmed(more)
  {
    assert forall c :: c in causes + more <==> c in causes || c in more;
  }

  /** The causes begin with the first failure, and there are none without one. */
  lemma {:induction false} CausesAreFailures(events: seq<Event>, aborted: bool)
    ensures Causes(events, aborted) == [] <==> !aborted && forall i :: 0 <= i < |events| ==> !Fails(events, i)
    ensures aborted ==> Causes(events, aborted) != [] && Causes(events, aborted)[0] == Cancelled
    ensures !aborted ==>
              forall i :: FirstFailure(events, i) ==>
                            Causes(events, aborted) != [] && Causes(events, aborted)[0] == Reason(events[i])
  {
    hide Received, Fails;
    if events != [] {
      var n := |events| - 1;
      var before, e := events[..n], events[n];
      assert events == before + [e];
      CausesAreFailures(before, aborted);
      FailsLater(before, e);
      assert forall i :: 0 <= i < n ==> before[i] == events[i];
    }
  }

  lemma CauseArms(e: Event, stdoutSize: nat, stderrSize: nat, timeoutArmed: bool)
    ensures
      var cause := CauseOf(e, stdoutSize, stderrSize, timeoutArmed);
      ForceArmed(cause) <==> cause != [] && !e.ChildError?
  {
    var cause := CauseOf(e, stdoutSize, stderrSize, timeoutArmed);
    if cause != [] { assert cause[0] in cause; }
  }

  lemma NothingArmed()
    ensures !ForceArmed([]) && ForceArmed([Cancelled])
  {
    assert Cancelled in [Cancelled];
  }

  lemma {:induction false} ToldIsExact(events: seq<Event>, aborted: bool)
    ensures ForceArmed(Causes(events, aborted)) <==> Told(events, aborted)
  {
    hide Received, Fails, CauseOf, ForceArmed;
    if events == [] {
      NothingArmed();
    } else {
      var n := |events| - 1;
      var before, e := events[..n], events[n];
      assert events == before + [e];
      ToldIsExact(before, aborted);
      FailsLater(before, e);
      var timeoutArmed := forall i :: 0 <= i < |before| ==> !before[i].TimeoutFires?;
      var cause := CauseOf(e, |Received(before, Stdout)|, |Received(before, Stderr)|, timeoutArmed);
      CauseArms(e, |Received(before, Stdout)|, |Received(before, Stderr)|, timeoutArmed);
      ArmedByEither(Causes(before, aborted), cause);
      assert forall i :: 0 <= i < n ==> before[i] == events[i];
    }
  }

  lemma {:induction false} UnsettledIsExact(events: seq<Event>, abort: Option<bool>)
    ensures Unsettled(events, abort) <==> GroupLeft(events, abort)
  {
    hide Received, Fails, Causes, CauseOf;
    if events != [] {
      var n := |events| - 1;
      var before, e := events[..n], events[n];
      assert events == before + [e];
      UnsettledIsExact(before, abort);
      MissedLater(before, e, abort.Some?);
      ExitsLater(before, e);
      assert GroupLeft(events, abort) <==> (GroupLeft(before, abort) && !e.Exit?) || Missed(events, abort.Some?, n) by {
        LeftLater(before, e, abort);
      }
    }
  }

  lemma ExitsLater(events: seq<Event>, e: Event)
    ensures forall from :: 0 <= from <= |events| ==>
              (NoExitFrom(events + [e], from) <==> NoExitFrom(events, from) && !e.Exit?)
  {
    var longer := events + [e];
    assert longer[|events|] == e && forall i :: 0 <= i < |events| ==> longer[i] == events[i];
  }

  lemma MissedLater(events: seq<Event>, e: Event, aborted: bool)
    ensures forall j :: 0 <= j < |events| ==> (Missed(events + [e], aborted, j) <==> Missed(events, aborted, j))
    ensures !e.Exit? ==>
              forall failing: bool :: CleanupAfter(e, failing, Causes(events, aborted), Causes(events + [e], aborted))
                                      == (failing || Missed(events + [e], aborted, |events|))
    ensures e.Exit? ==> (Missed(events + [e], aborted, |events|) <==> !e.signalled)
  {
    hide Received, Fails, CauseOf;
    var longer := events + [e];
    FailsLater(events, e);
    ToldIsExact(events, aborted);
    ReceivedExtends(events, e, if aborted then Some(true) else None);
    forall j | 0 <= j < |events| ensures Missed(longer, aborted, j) <==> Missed(events, aborted, j) {
      assert longer[..j] == events[..j];
    }
    assert longer[..|events|] == events;
  }

  lemma LeftLater(events: seq<Event>, e: Event, abort: Option<bool>)
    ensures GroupLeft(events + [e], abort)
            <==> (GroupLeft(events, abort) && !e.Exit?) || Missed(events + [e], abort.Some?, |events|)
  {
    hide Missed, NoExitFrom;
    MissedLater(events, e, abort.Some?);
    ExitsLater(events, e);
    assert NoExitFrom(events + [e], |events| + 1) by { NoneLeft(events + [e]); }
  }

  lemma NoneLeft(events: seq<Event>)
    ensures NoExitFrom(events, |events|)
  {
  }

  /** Event `x` is the last exit, and it was clean. */
  predicate CleanExit(events: seq<Event>, x: int) {
    && 0 <= x < |events| && events[x].Exit? && events[x].code == Some(0) && events[x].signal.None?
    && NoExitFrom(events, x + 1)
  }

  lemma {:induction false} LastExitIsExact(events: seq<Event>)
    ensures LastExit(events) == (Some(0), None) <==> exists x :: CleanExit(events, x)
  {
    if events != [] {
      var n := |events| - 1;
      var before, e := events[..n], events[n];
      assert events == before + [e];
      LastExitIsExact(before);
      ExitsLater(before, e);
      NoneLeft(events);
      if e.Exit? {
        if x :| CleanExit(events, x) { assert x == n; }
        if LastExit(events) == (Some(0), None) { assert CleanExit(events, n); }
      } else {
        assert forall x :: CleanExit(events, x) <==> CleanExit(before, x);
      }
    }
  }

  /**
   * The status of a delivered result, from the events before the one that ended the run: cleanup failed when the drain
   * deadline passed or a signal missed the group for good; otherwise the first failure decides; without one, input that
   * was not taken, then an exit that was not clean.
   */
  lemma StatusIsExact(result: Result, events: seq<Event>, abort: Option<bool>, k: int)
    requires Explains(result, events, abort, k)
    ensures
      var seen := events[..k];
      var failed := abort.Some? || exists i :: 0 <= i < k && Fails(seen, i);
      var fed := exists i :: 0 <= i < k && seen[i].StdinFinish?;
      var clean := exists x :: CleanExit(seen, x);
      && (result.status == CleanupFailed <==> events[k].DrainFires? || GroupLeft(seen, abort))
      && (result.status != CleanupFailed && failed ==>
            if abort.Some? then result.status == Cancelled
            else forall i :: FirstFailure(seen, i) ==> result.status == Reason(seen[i]))
      && (result.status != CleanupFailed && !failed ==>
            result.status == if !fed then InputFailed else if !clean then ExitFailed else Ok)
      && (result.status == Ok <==> !failed && fed && clean && events[k].Close? && !GroupLeft(seen, abort))
  {
    hide Received, LastExit, Causes, Unsettled, Bounded, Fails, GroupLeft, CleanExit;
    CausesAreFailures(events[..k], abort.Some?);
    UnsettledIsExact(events[..k], abort);
    LastExitIsExact(events[..k]);
    if exists i :: 0 <= i < k && Fails(events[..k], i) {
      FirstExists(events[..k]);
    }
  }

  lemma FirstExists(events: seq<Event>)
    requires exists i :: 0 <= i < |events| && Fails(events, i)
    ensures exists i :: FirstFailure(events, i)
  {
    hide Fails;
    var i :| 0 <= i < |events| && Fails(events, i);
    while exists j :: 0 <= j < i && Fails(events, j)
      invariant 0 <= i < |events| && Fails(events, i)
      decreases i
    {
      var j :| 0 <= j < i && Fails(events, j);
      i := j;
    }
    assert FirstFailure(events, i);
  }
}

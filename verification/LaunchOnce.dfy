/**
 * "Launch once, keep the evidence": src/services/gaap-executor.ts over the commit protocol. Any number of runners and
 * importers share one registered Attempt; each may crash between any two steps, and new ones may start at any time.
 * The execution journal is an append-one-or-fail log.
 */
module LaunchOnce {
  import opened Options
  import opened CommitProtocol

  /** Where one process stands. */
  datatype Pc =
    | Arrived
    | HasRoot(revision: int)
    | Allocated(revision: int, directory: string)
    | Dispatching(directory: string)
    | Ran(directory: string, ok: bool)
    | Noting(directory: string, ok: bool, revision: int)
    | Noted(observation: nat)
    | Prepared(revision: int, observation: nat, source: string, blobs: set<string>)
    | Stopped

  datatype Observation = Observation(directory: string, ok: bool)

  datatype Accepted = Accepted(observation: nat, blobs: set<string>)

  /** The database, the output directories, the processes, and the history of spawned executors. */
  datatype State = State(
    revision: int,
    started: bool,
    receipts: seq<string>,
    launch: Option<string>,
    observations: seq<Observation>,
    accepted: map<string, Accepted>,
    blobs: set<string>,
    directories: set<string>,
    spawned: seq<string>,
    processes: map<nat, Pc>)

  const REGISTERED := State(0, false, [], None, [], map[], {}, {}, [], map[])

  datatype Event =
    | Arrive(id: nat)
    | ReadRoot(id: nat)
    | Allocate(id: nat, directory: string)
    | Launch(id: nat, journalStarts: bool, lands: bool, outcome: Outcome<()>, removes: bool)
    | Dispatch(id: nat, spawns: bool, ok: bool)
    | ReadRevision(id: nat)
    | Observe(id: nat, lands: bool, outcome: Outcome<()>)
    | Prepare(id: nat, observation: nat, source: string, blobs: set<string>)
    | Admit(id: nat, journalAppends: bool, lands: bool, outcome: Outcome<()>)
    | Evaluate(lands: bool)
    | Crash(id: nat)

  function At(s: State, id: nat): Pc {
    if id in s.processes then s.processes[id] else Stopped
  }

  function Moved(s: State, id: nat, pc: Pc): State {
    s.(processes := s.processes[id := pc])
  }

  // ----- one step

  /** The launch transaction commits only under the revision that was read, and the launch row is a primary key. */
  predicate LaunchLands(s: State, e: Event)
    requires e.Launch?
  {
    At(s, e.id).Allocated? && s.revision == At(s, e.id).revision && e.journalStarts && s.launch.None? && e.lands
  }

  predicate ObserveLands(s: State, e: Event)
    requires e.Observe?
  {
    At(s, e.id).Noting? && s.revision == At(s, e.id).revision && e.lands
  }

  predicate AdmitLands(s: State, e: Event)
    requires e.Admit?
  {
    At(s, e.id).Prepared? && s.revision == At(s, e.id).revision && e.journalAppends && e.lands
    && At(s, e.id).source !in s.accepted
  }

  function LaunchStep(s: State, e: Event): State
    requires e.Launch? && At(s, e.id).Allocated?
  {
    var directory := At(s, e.id).directory;
    var after :=
      if LaunchLands(s, e) then s.(revision := s.revision + 1, started := true, launch := Some(directory)) else s;
    match e.outcome
    case Returned(_) => Moved(after, e.id, Dispatching(directory))
    case Failed =>
      Moved(if e.removes then after.(directories := after.directories - {directory}) else after, e.id, Stopped)
    case _ => Moved(after, e.id, Stopped)
  }

  function ObserveStep(s: State, e: Event): State
    requires e.Observe? && At(s, e.id).Noting?
  {
    var pc := At(s, e.id);
    var after :=
      if ObserveLands(s, e)
      then s.(revision := s.revision + 1, observations := s.observations + [Observation(pc.directory, pc.ok)])
      else s;
    Moved(after, e.id,
          if e.outcome.Returned? && pc.ok && ObserveLands(s, e) then Noted(|s.observations|) else Stopped)
  }

  /** Importing needs a retained successful observation bound to the launch row, and a source not yet admitted. */
  function PrepareStep(s: State, e: Event): State
    requires e.Prepare?
  {
    var pc := At(s, e.id);
    if !(pc.Arrived? || (pc.Noted? && pc.observation == e.observation)) then s
    else if |s.observations| <= e.observation || !s.observations[e.observation].ok
            || s.launch != Some(s.observations[e.observation].directory) || e.source in s.accepted
    then Moved(s, e.id, Stopped)
    else Moved(s, e.id, Prepared(s.revision, e.observation, e.source, e.blobs))
  }

  function AdmitStep(s: State, e: Event): State
    requires e.Admit? && At(s, e.id).Prepared?
  {
    var pc := At(s, e.id);
    var after :=
      if AdmitLands(s, e)
      then s.(revision := s.revision + 1, receipts := s.receipts + [pc.source], blobs := s.blobs + pc.blobs,
              accepted := s.accepted[pc.source := Accepted(pc.observation, pc.blobs)])
      else s;
    Moved(after, e.id, Stopped)
  }

  /** One step of one process; a step that is not enabled changes nothing. */
  function Step(s: State, e: Event): State {
    match e
    case Arrive(id) => if id in s.processes then s else Moved(s, id, Arrived)
    case ReadRoot(id) =>
      if At(s, id).Arrived? then Moved(s, id, if s.started then Stopped else HasRoot(s.revision)) else s
    case Allocate(id, directory) =>
      if At(s, id).HasRoot? && directory !in s.directories
      then Moved(s.(directories := s.directories + {directory}), id, Allocated(At(s, id).revision, directory))
      else s
    case Launch(id, _, _, outcome, _) =>
      if At(s, id).Allocated? && Reported(LaunchLands(s, e), outcome) then LaunchStep(s, e) else s
    case Dispatch(id, spawns, ok) =>
      if At(s, id).Dispatching? && (ok ==> spawns)
      then Moved(s.(spawned := s.spawned + if spawns then [At(s, id).directory] else []), id,
                 Ran(At(s, id).directory, ok))
      else s
    case ReadRevision(id) =>
      if At(s, id).Ran? then Moved(s, id, Noting(At(s, id).directory, At(s, id).ok, s.revision)) else s
    case Observe(id, _, outcome) =>
      if At(s, id).Noting? && Reported(ObserveLands(s, e), outcome) then ObserveStep(s, e) else s
    case Prepare(_, _, _, _) => PrepareStep(s, e)
    case Admit(id, _, _, outcome) =>
      if At(s, id).Prepared? && Reported(AdmitLands(s, e), outcome) then AdmitStep(s, e) else s
    case Evaluate(lands) => if lands then s.(revision := s.revision + 1) else s
    case Crash(id) => if id in s.processes then Moved(s, id, Stopped) else s
  }

  function Run(s: State, events: seq<Event>): State {
    if events == [] then s else Step(Run(s, events[..|events| - 1]), events[|events| - 1])
  }

  // ----- what every step keeps

  /**
   * A root read as pending is pending until the revision moves; an allocated directory is nobody's launch yet; a
   * process about to spawn holds the one launch row, and nothing has been spawned under it; only a spawned executor
   * ever ends well.
   */
  predicate PcInv(s: State, pc: Pc) {
    match pc
    case HasRoot(revision) => revision <= s.revision && (revision == s.revision ==> !s.started)
    case Allocated(revision, directory) =>
      && revision <= s.revision && (revision == s.revision ==> !s.started)
      && directory in s.directories && s.launch != Some(directory)
    case Dispatching(directory) => s.launch == Some(directory) && s.spawned == []
    case Ran(directory, ok) => s.launch == Some(directory) && (ok ==> directory in s.spawned)
    case Noting(directory, ok, _) => s.launch == Some(directory) && (ok ==> directory in s.spawned)
    case _ => true
  }

  /** Two processes never share an allocated directory, and only one is about to spawn. */
  predicate Compatible(pc: Pc, other: Pc) {
    && !(pc.Dispatching? && other.Dispatching?)
    && (pc.Allocated? && other.Allocated? ==> pc.directory != other.directory)
  }

  ghost predicate ProcessInv(s: State) {
    && (forall id {:trigger At(s, id)} :: id in s.processes ==> PcInv(s, At(s, id)))
    && (forall id, other {:trigger At(s, id), At(s, other)} ::
          id in s.processes && other in s.processes && id != other ==> Compatible(At(s, id), At(s, other)))
  }

  ghost predicate LaunchInv(s: State) {
    && (s.started <==> s.launch.Some?)
    && (s.launch.Some? ==> s.launch.value in s.directories)
    && |s.spawned| <= 1
    && (forall d :: d in s.spawned ==> s.launch == Some(d))
  }

  /** The observation is a successful one of the launched executor. */
  predicate Bound(s: State, observation: nat) {
    && observation < |s.observations|
    && s.observations[observation].ok
    && s.launch == Some(s.observations[observation].directory)
  }

  /** What a process goes by is such an observation. */
  predicate Grounded(s: State, pc: Pc) {
    pc.Noted? || pc.Prepared? ==> Bound(s, pc.observation)
  }

  ghost predicate EvidenceInv(s: State) {
    && (forall i :: 0 <= i < |s.observations| ==>
          && s.launch == Some(s.observations[i].directory)
          && (s.observations[i].ok ==> s.observations[i].directory in s.spawned))
    && (forall i, j :: 0 <= i < j < |s.receipts| ==> s.receipts[i] != s.receipts[j])
    && (forall source :: source in s.receipts <==> source in s.accepted)
    && (forall source :: source in s.accepted ==>
          s.accepted[source].blobs <= s.blobs && Bound(s, s.accepted[source].observation))
    && (forall id {:trigger At(s, id)} :: id in s.processes ==> Grounded(s, At(s, id)))
  }

  ghost predicate Inv(s: State) {
    ProcessInv(s) && LaunchInv(s) && EvidenceInv(s)
  }

  /** One process moved, and what the others rely on still holds. */
  lemma OneMoved(s: State, t: State, id: nat, pc: Pc)
    requires ProcessInv(s) && t.processes == s.processes[id := pc]
    requires PcInv(t, pc)
    requires forall other {:trigger At(s, other)} :: other in s.processes && other != id ==>
               PcInv(t, At(s, other)) && Compatible(pc, At(s, other))
    ensures ProcessInv(t)
  {
    hide PcInv, Compatible;
    forall other | other in t.processes ensures PcInv(t, At(t, other)) {
      if other != id { assert At(t, other) == At(s, other); }
    }
    forall one, other | one in t.processes && other in t.processes && one != other
      ensures Compatible(At(t, one), At(t, other))
    {
      if one != id { assert At(t, one) == At(s, one); }
      if other != id { assert At(t, other) == At(s, other); }
      if one != id && other == id { CompatibleCommutes(pc, At(s, one)); }
    }
  }

  lemma CompatibleCommutes(pc: Pc, other: Pc)
    ensures Compatible(pc, other) == Compatible(other, pc)
  {
  }

  /** Steps that leave the launch and the spawns alone disturb no other process. */
  ghost predicate Quiet(s: State, t: State) {
    && t.started == s.started && t.launch == s.launch && t.spawned == s.spawned
    && s.revision <= t.revision && s.directories <= t.directories
  }

  lemma QuietKeeps(s: State, t: State, id: nat, pc: Pc)
    requires ProcessInv(s) && LaunchInv(s) && Quiet(s, t) && t.processes == s.processes[id := pc]
    requires PcInv(t, pc) && !pc.Dispatching? && (pc.Allocated? ==> pc.directory !in s.directories)
    ensures ProcessInv(t) && LaunchInv(t)
  {
    forall other | other in s.processes && other != id
      ensures PcInv(t, At(s, other)) && Compatible(pc, At(s, other))
    {
      assert PcInv(s, At(s, other));
    }
    OneMoved(s, t, id, pc);
  }

  lemma LaunchKeeps(s: State, e: Event)
    requires ProcessInv(s) && LaunchInv(s)
    requires e.Launch? && At(s, e.id).Allocated? && Reported(LaunchLands(s, e), e.outcome)
    ensures ProcessInv(LaunchStep(s, e)) && LaunchInv(LaunchStep(s, e))
  {
    var t, pc := LaunchStep(s, e), At(s, e.id);
    assert PcInv(s, pc);
    if s.spawned != [] { assert s.spawned[0] in s.spawned; }
    forall other | other in s.processes && other != e.id
      ensures PcInv(t, At(s, other)) && Compatible(At(t, e.id), At(s, other))
    {
      assert PcInv(s, At(s, other)) && Compatible(pc, At(s, other));
    }
    OneMoved(s, t, e.id, At(t, e.id));
  }

  lemma DispatchKeeps(s: State, e: Event)
    requires ProcessInv(s) && LaunchInv(s) && e.Dispatch? && At(s, e.id).Dispatching?
    ensures ProcessInv(Step(s, e)) && LaunchInv(Step(s, e))
  {
    var t, pc := Step(s, e), At(s, e.id);
    assert PcInv(s, pc);
    forall other | other in s.processes && other != e.id
      ensures PcInv(t, At(s, other)) && Compatible(At(t, e.id), At(s, other))
    {
      assert PcInv(s, At(s, other)) && Compatible(pc, At(s, other));
    }
    OneMoved(s, t, e.id, At(t, e.id));
  }

  lemma ProcessesKeep(s: State, e: Event)
    requires ProcessInv(s) && LaunchInv(s)
    ensures ProcessInv(Step(s, e)) && LaunchInv(Step(s, e))
  {
    hide ProcessInv, LaunchInv, LaunchStep, AdmitLands, ObserveLands, LaunchLands;
    LaunchedDirectoryExists(s);
    if Step(s, e) != s {
      match e
      case Launch(_, _, _, _, _) => LaunchKeeps(s, e);
      case Dispatch(_, _, _) => DispatchKeeps(s, e);
      case Evaluate(_) => EvaluateKeeps(s);
      case _ => ReadsProcess(s, e.id); QuietKeeps(s, Step(s, e), e.id, At(Step(s, e), e.id));
    }
  }

  lemma LaunchedDirectoryExists(s: State)
    requires LaunchInv(s)
    ensures s.launch.Some? ==> s.launch.value in s.directories
  {
  }

  lemma ReadsProcess(s: State, id: nat)
    requires ProcessInv(s)
    ensures id in s.processes ==> PcInv(s, At(s, id))
  {
  }

  lemma EvaluateKeeps(s: State)
    requires ProcessInv(s) && LaunchInv(s)
    ensures
      var t := s.(revision := s.revision + 1);
      ProcessInv(t) && LaunchInv(t)
  {
    var t := s.(revision := s.revision + 1);
    forall id | id in t.processes ensures PcInv(t, At(t, id)) {
      assert At(t, id) == At(s, id) && PcInv(s, At(s, id));
    }
    forall id, other | id in t.processes && other in t.processes && id != other
      ensures Compatible(At(t, id), At(t, other))
    {
      assert At(t, id) == At(s, id) && At(t, other) == At(s, other);
    }
  }

  /** A step that writes no evidence, and leaves a launch alone unless nothing has been observed. */
  lemma SameEvidenceKeeps(s: State, t: State, id: nat, pc: Pc)
    requires EvidenceInv(s) && t.processes == s.processes[id := pc]
    requires t.observations == s.observations && t.receipts == s.receipts
    requires t.accepted == s.accepted && t.blobs == s.blobs
    requires s.spawned <= t.spawned && (s.observations != [] ==> t.launch == s.launch)
    requires Grounded(t, pc)
    ensures EvidenceInv(t)
  {
    forall other | other in t.processes ensures Grounded(t, At(t, other)) {
      if other != id { assert At(t, other) == At(s, other); }
    }
  }

  lemma ObserveKeepsEvidence(s: State, e: Event)
    requires EvidenceInv(s) && e.Observe? && At(s, e.id).Noting? && PcInv(s, At(s, e.id))
    ensures EvidenceInv(ObserveStep(s, e))
  {
    var t := ObserveStep(s, e);
    assert forall n :: Bound(s, n) ==> Bound(t, n);
    forall other | other in t.processes ensures Grounded(t, At(t, other)) {
      if other != e.id { assert At(t, other) == At(s, other); }
    }
  }

  lemma AdmitKeepsEvidence(s: State, e: Event)
    requires EvidenceInv(s) && e.Admit? && At(s, e.id).Prepared?
    ensures EvidenceInv(AdmitStep(s, e))
  {
    var t := AdmitStep(s, e);
    assert Bound(s, At(s, e.id).observation);
    assert forall n :: Bound(s, n) ==> Bound(t, n);
    forall other | other in t.processes ensures Grounded(t, At(t, other)) {
      if other != e.id { assert At(t, other) == At(s, other); }
    }
  }

  lemma NothingObservedYet(s: State)
    requires EvidenceInv(s)
    ensures s.observations != [] ==> s.launch.Some?
  {
    if s.observations != [] { assert s.launch == Some(s.observations[0].directory); }
  }

  lemma EvidenceKeeps(s: State, e: Event)
    requires ProcessInv(s) && LaunchInv(s) && EvidenceInv(s)
    ensures EvidenceInv(Step(s, e))
  {
    hide ProcessInv, LaunchInv, EvidenceInv, ObserveStep, AdmitStep, ObserveLands, AdmitLands;
    NothingObservedYet(s);
    if Step(s, e) != s {
      match e
      case Observe(id, _, _) => ReadsProcess(s, id); ObserveKeepsEvidence(s, e);
      case Admit(_, _, _, _) => AdmitKeepsEvidence(s, e);
      case Evaluate(_) => EvidenceIgnoresRevision(s);
      case _ => SameEvidenceKeeps(s, Step(s, e), e.id, At(Step(s, e), e.id));
    }
  }

  lemma EvidenceIgnoresRevision(s: State)
    requires EvidenceInv(s)
    ensures EvidenceInv(s.(revision := s.revision + 1))
  {
    var t := s.(revision := s.revision + 1);
    assert forall n :: Bound(s, n) ==> Bound(t, n);
    forall id | id in t.processes ensures Grounded(t, At(t, id)) {
      assert At(t, id) == At(s, id);
    }
  }

  lemma StepKeeps(s: State, e: Event)
    requires Inv(s)
    ensures Inv(Step(s, e))
  {
    hide ProcessInv, LaunchInv, EvidenceInv, Step;
    ProcessesKeep(s, e);
    EvidenceKeeps(s, e);
  }

  lemma InvFrom(s: State)
    requires ProcessInv(s) && LaunchInv(s) && EvidenceInv(s)
    ensures Inv(s)
  {
  }

  lemma {:induction false} RunKeeps(events: seq<Event>)
    ensures Inv(Run(REGISTERED, events))
  {
    hide Step, Inv;
    if events == [] {
      InvFrom(REGISTERED);
    } else {
      RunKeeps(events[..|events| - 1]);
      StepKeeps(Run(REGISTERED, events[..|events| - 1]), events[|events| - 1]);
    }
  }

  // ----- launch once

  /**
   * Whatever runs, crashes and restarts, at most one executor is ever spawned for the Attempt, it is the one the
   * durable launch row names, and that row's output directory still exists.
   */
  lemma LaunchedOnce(events: seq<Event>)
    ensures
      var s := Run(REGISTERED, events);
      && |s.spawned| <= 1
      && (s.spawned != [] ==> s.launch == Some(s.spawned[0]))
      && (s.launch.Some? ==> s.started && s.launch.value in s.directories)
  {
    hide Run;
    RunKeeps(events);
    var s := Run(REGISTERED, events);
    if s.spawned != [] { assert s.spawned[0] in s.spawned; }
  }

  lemma RunOne(events: seq<Event>, e: Event)
    ensures Run(REGISTERED, events + [e]) == Step(Run(REGISTERED, events), e)
  {
    assert (events + [e])[..|events|] == events;
  }

  /** The machine does launch: one runner on its own spawns its executor. */
  lemma LaunchIsReachable(directory: string)
    ensures
      var prepared := [Arrive(0)] + [ReadRoot(0)] + [Allocate(0, directory)];
      var launching := prepared + [Launch(0, true, true, Returned(()), false)];
      Run(REGISTERED, launching + [Dispatch(0, true, true)]).spawned == [directory]
  {
    hide Run;
    var arrived, read := [Arrive(0)], [Arrive(0)] + [ReadRoot(0)];
    var prepared := read + [Allocate(0, directory)];
    var launching := prepared + [Launch(0, true, true, Returned(()), false)];
    RunNothing();
    RunOne([], Arrive(0));
    assert [] + arrived == arrived;
    RunOne(arrived, ReadRoot(0));
    RunOne(read, Allocate(0, directory));
    assert At(Run(REGISTERED, prepared), 0) == Allocated(0, directory);
    RunOne(prepared, Launch(0, true, true, Returned(()), false));
    assert At(Run(REGISTERED, launching), 0) == Dispatching(directory);
    RunOne(launching, Dispatch(0, true, true));
  }

  lemma RunNothing()
    ensures Run(REGISTERED, []) == REGISTERED
  {
  }

  /** The launch row is durable before the spawn it authorises. */
  lemma SpawnFollowsLaunch(events: seq<Event>, e: Event)
    requires Step(Run(REGISTERED, events), e).spawned != Run(REGISTERED, events).spawned
    ensures
      var s := Run(REGISTERED, events);
      && s.spawned == []
      && s.launch.Some?
      && Step(s, e).spawned == [s.launch.value]
  {
    hide Run;
    RunKeeps(events);
    ReadsProcess(Run(REGISTERED, events), e.id);
  }

  /** Launched, with nobody about to spawn. */
  ghost predicate Settled(s: State) {
    s.launch.Some? && forall id :: id in s.processes ==> !s.processes[id].Dispatching?
  }

  /**
   * What can never be taken back: the launch row, its directory, observations, receipts, accepted rows, blobs, spawns;
   * and once launched with nobody about to spawn, the spawns are final.
   */
  ghost predicate Retains(s: State, t: State) {
    && s.revision <= t.revision
    && (s.launch.Some? ==> t.launch == s.launch && s.launch.value in t.directories)
    && s.observations <= t.observations
    && s.receipts <= t.receipts
    && (forall source :: source in s.accepted ==> source in t.accepted && t.accepted[source] == s.accepted[source])
    && s.blobs <= t.blobs
    && s.spawned <= t.spawned
    && (Settled(s) ==> Settled(t) && t.spawned == s.spawned)
  }

  lemma LaunchRetains(s: State, e: Event)
    requires ProcessInv(s) && LaunchInv(s) && e.Launch? && At(s, e.id).Allocated?
    requires Reported(LaunchLands(s, e), e.outcome)
    ensures Retains(s, LaunchStep(s, e))
  {
    hide Settled;
    ReadsProcess(s, e.id);
    if Settled(s) { SettledStays(s, e); }
  }

  lemma StepRetains(s: State, e: Event)
    requires Inv(s)
    ensures Retains(s, Step(s, e))
  {
    hide ProcessInv, EvidenceInv, LaunchStep, Settled;
    if Settled(s) { SettledStays(s, e); }
    if e.Launch? && At(s, e.id).Allocated? && Reported(LaunchLands(s, e), e.outcome) { LaunchRetains(s, e); }
  }

  lemma {:induction false} RunRetains(before: seq<Event>, after: seq<Event>)
    ensures Retains(Run(REGISTERED, before), Run(REGISTERED, before + after))
  {
    hide Step, Run;
    RunKeeps(before);
    if after == [] {
      assert before + after == before;
      StepRetainsNothing(Run(REGISTERED, before));
    } else {
      var n := |after| - 1;
      RunRetains(before, after[..n]);
      RunKeeps(before + after[..n]);
      RunExtends(before, after);
      StepRetains(Run(REGISTERED, before + after[..n]), after[n]);
    }
  }

  lemma StepRetainsNothing(s: State)
    requires Inv(s)
    ensures Retains(s, s)
  {
  }

  lemma RunExtends(before: seq<Event>, after: seq<Event>)
    requires after != []
    ensures Run(REGISTERED, before + after)
            == Step(Run(REGISTERED, before + after[..|after| - 1]), after[|after| - 1])
  {
    assert (before + after)[..|before + after| - 1] == before + after[..|after| - 1];
  }

  /**
   * A journal receipt, its accepted row and its blobs appear together or not at all, and every admitted source traces
   * back to a successful observation of the one spawned executor.
   */
  lemma AdmittedTogether(events: seq<Event>, source: string)
    ensures
      var s := Run(REGISTERED, events);
      && (source in s.receipts <==> source in s.accepted)
      && (source in s.accepted ==>
            && s.accepted[source].blobs <= s.blobs
            && s.accepted[source].observation < |s.observations|
            && s.observations[s.accepted[source].observation].ok
            && s.spawned == [s.observations[s.accepted[source].observation].directory])
      && |s.receipts| == |s.accepted.Keys|
  {
    hide Run;
    RunKeeps(events);
    var s := Run(REGISTERED, events);
    ReceiptsCountAccepted(s.receipts, s.accepted.Keys);
  }

  lemma {:induction false} ReceiptsCountAccepted(receipts: seq<string>, accepted: set<string>)
    requires forall i, j :: 0 <= i < j < |receipts| ==> receipts[i] != receipts[j]
    requires forall source :: source in receipts <==> source in accepted
    ensures |receipts| == |accepted|
  {
    if receipts == [] {
      assert accepted == {};
    } else {
      var n := |receipts| - 1;
      assert receipts == receipts[..n] + [receipts[n]];
      ReceiptsCountAccepted(receipts[..n], accepted - {receipts[n]});
    }
  }

  /** Once launched with nobody about to spawn, the Attempt never spawns again: a crash strands it for inspection. */
  lemma StrandedLaunchStays(before: seq<Event>, after: seq<Event>)
    requires Settled(Run(REGISTERED, before))
    ensures
      var s, t := Run(REGISTERED, before), Run(REGISTERED, before + after);
      Settled(t) && t.spawned == s.spawned && t.launch == s.launch
  {
    hide Run;
    RunRetains(before, after);
  }

  lemma SettledStays(s: State, e: Event)
    requires Settled(s)
    ensures Settled(Step(s, e)) && Step(s, e).spawned == s.spawned
  {
    hide Step;
    StepLeavesDispatchers(s, e);
  }

  /** Only a landed launch makes a process ready to spawn. */
  lemma StepLeavesDispatchers(s: State, e: Event)
    requires s.launch.Some?
    ensures forall id :: id in Step(s, e).processes && Step(s, e).processes[id].Dispatching? ==>
              id in s.processes && s.processes[id].Dispatching?
    ensures Step(s, e).launch == s.launch
    ensures Step(s, e).spawned != s.spawned ==> e.Dispatch? && At(s, e.id).Dispatching?
  {
    hide ObserveLands, AdmitLands;
  }

  // ----- no commit over something it has not read

  /** What the database holds, apart from its revision. */
  function DatabaseOf(s: State)
    : (bool, Option<string>, seq<Observation>, seq<string>, map<string, Accepted>, set<string>)
  {
    (s.started, s.launch, s.observations, s.receipts, s.accepted, s.blobs)
  }

  /** The revision a process goes by, once it has read one. */
  function GoesBy(pc: Pc): Option<int> {
    match pc
    case HasRoot(revision) => Some(revision)
    case Allocated(revision, _) => Some(revision)
    case Noting(_, _, revision) => Some(revision)
    case Prepared(revision, _, _, _) => Some(revision)
    case _ => None
  }

  /** A process that comes by a revision has read the root's; and every change of the database is a new revision. */
  lemma StepIsFenced(s: State, e: Event)
    ensures
      var t := Step(s, e);
      && (t.revision == s.revision || t.revision == s.revision + 1)
      && (t.revision == s.revision ==> DatabaseOf(t) == DatabaseOf(s))
      && (t.revision != s.revision && !e.Evaluate? ==> GoesBy(At(s, e.id)) == Some(s.revision))
      && (!e.Evaluate? && GoesBy(At(t, e.id)).Some? ==>
            GoesBy(At(t, e.id)) in {GoesBy(At(s, e.id)), Some(s.revision)})
  {
  }

  /** Equal revisions at two points of a run mean equal databases. */
  lemma {:induction false} RevisionNamesDatabase(before: seq<Event>, after: seq<Event>)
    ensures
      var s, t := Run(REGISTERED, before), Run(REGISTERED, before + after);
      s.revision <= t.revision && (s.revision == t.revision ==> DatabaseOf(s) == DatabaseOf(t))
  {
    hide Step, Run, DatabaseOf;
    if after == [] {
      assert before + after == before;
    } else {
      var n := |after| - 1;
      RevisionNamesDatabase(before, after[..n]);
      RunExtends(before, after);
      StepIsFenced(Run(REGISTERED, before + after[..n]), after[n]);
    }
  }

  /** Whatever commits finds the database it read: nothing another process wrote in between is ever overwritten. */
  lemma NoLostUpdate(before: seq<Event>, after: seq<Event>, e: Event)
    requires !e.Evaluate? && GoesBy(At(Run(REGISTERED, before + after), e.id)) == Some(Run(REGISTERED, before).revision)
    requires Step(Run(REGISTERED, before + after), e).revision != Run(REGISTERED, before + after).revision
    ensures DatabaseOf(Run(REGISTERED, before + after)) == DatabaseOf(Run(REGISTERED, before))
  {
    hide Step, Run, DatabaseOf;
    StepIsFenced(Run(REGISTERED, before + after), e);
    RevisionNamesDatabase(before, after);
  }

  // ----- one runner, among the others

  predicate ActsFor(e: Event, id: nat) {
    !e.Evaluate? && e.id == id
  }

  lemma OthersLeaveMe(s: State, e: Event, id: nat)
    requires !ActsFor(e, id)
    ensures At(Step(s, e), id) == At(s, id)
    ensures id in Step(s, e).processes <==> id in s.processes
  {
  }

  /** How a transaction that landed, or one that did not, is reported. */
  datatype Reply = Reply(whenDurable: Outcome<()>, whenNot: Outcome<()>)

  predicate Honest(reply: Reply) {
    Reported(true, reply.whenDurable) && Reported(false, reply.whenNot)
  }

  function Pick(reply: Reply, durable: bool): Outcome<()> {
    if durable then reply.whenDurable else reply.whenNot
  }

  /**
   * What one run meets: the other processes' steps at each gap, and everything it observes itself; `same` is whether a
   * source that was admitted before holds the very evidence that is presented now.
   */
  datatype RunWeather = RunWeather(
    gaps: seq<seq<Event>>, directory: string, journalStarts: bool, launchLands: bool, launchReply: Reply, removes: bool,
    spawns: bool, ok: bool, observeLands: bool, observeReply: Reply, verifies: bool, source: string, blobs: set<string>,
    same: bool, journalAppends: bool, admitLands: bool, admitReply: Reply)

  datatype RunResult =
    | AlreadyLaunched
    | NoDirectory
    | LaunchThrew(error: Outcome<()>)
    | ObservationThrew
    | TransportFailed
    | Rejected
    | AlreadyAdmitted
    | AdmissionThrew(error: Outcome<()>)
    | Admitted

  predicate OthersOnly(gaps: seq<seq<Event>>, id: nat) {
    |gaps| == 8 && forall g :: 0 <= g < 8 ==> forall i :: 0 <= i < |gaps[g]| ==> !ActsFor(gaps[g][i], id)
  }

  /** The three moments that decide a launch: reading the root, taking a directory, and the launch transaction. */
  function AtRead(s: State, id: nat, w: RunWeather): State
    requires |w.gaps| == 8
  {
    Run(Step(s, Arrive(id)), w.gaps[0])
  }

  function AtAllocation(s: State, id: nat, w: RunWeather): State
    requires |w.gaps| == 8
  {
    Run(Step(AtRead(s, id, w), ReadRoot(id)), w.gaps[1])
  }

  function AtLaunch(s: State, id: nat, w: RunWeather): State
    requires |w.gaps| == 8
  {
    Run(Step(AtAllocation(s, id, w), Allocate(id, w.directory)), w.gaps[2])
  }

  /** The Attempt was pending when it was read, and the directory was free. */
  predicate Starts(s: State, id: nat, w: RunWeather)
    requires |w.gaps| == 8
  {
    !AtRead(s, id, w).started && w.directory !in AtAllocation(s, id, w).directories
  }

  /** Nobody has committed since the root was read, and the journal and the disk both take the launch. */
  predicate Launches(s: State, id: nat, w: RunWeather)
    requires |w.gaps| == 8
  {
    && Starts(s, id, w)
    && AtLaunch(s, id, w).revision == AtRead(s, id, w).revision
    && w.journalStarts && w.launchLands
  }

  /** A runner's steps, among those of the others: up to the launch decision, up to the launch, up to the spawn. */
  function Opening(id: nat, w: RunWeather): seq<Event>
    requires |w.gaps| == 8
  {
    [Arrive(id)] + w.gaps[0] + [ReadRoot(id)] + w.gaps[1]
  }

  function Launching(id: nat, w: RunWeather, outcome: Outcome<()>): seq<Event>
    requires |w.gaps| == 8
  {
    Opening(id, w) + [Allocate(id, w.directory)] + w.gaps[2]
    + [Launch(id, w.journalStarts, w.launchLands, outcome, w.removes)]
  }

  function Dispatched(id: nat, w: RunWeather, outcome: Outcome<()>): seq<Event>
    requires |w.gaps| == 8
  {
    Launching(id, w, outcome) + w.gaps[3] + [Dispatch(id, w.spawns, w.ok)]
  }

  /** After the spawn that followed a durable launch. */
  function AfterDispatch(s: State, id: nat, w: RunWeather): State
    requires |w.gaps| == 8
  {
    var outcome := Pick(w.launchReply, Launches(s, id, w));
    var launched := Step(AtLaunch(s, id, w), Launch(id, w.journalStarts, w.launchLands, outcome, w.removes));
    Step(Run(launched, w.gaps[3]), Dispatch(id, w.spawns, w.ok))
  }

  /** The moments of the observation: reading the revision, and committing under it. */
  function AtNoting(s: State, w: RunWeather): State
    requires |w.gaps| == 8
  {
    Run(s, w.gaps[4])
  }

  function AtObservation(s: State, id: nat, w: RunWeather): State
    requires |w.gaps| == 8
  {
    Run(Step(AtNoting(s, w), ReadRevision(id)), w.gaps[5])
  }

  /** Nobody has committed since the revision was read, and the disk takes the observation. */
  predicate Observes(s: State, id: nat, w: RunWeather)
    requires |w.gaps| == 8
  {
    AtObservation(s, id, w).revision == AtNoting(s, w).revision && w.observeLands
  }

  function AfterObservation(s: State, id: nat, w: RunWeather): State
    requires |w.gaps| == 8
  {
    Step(AtObservation(s, id, w), Observe(id, w.observeLands, Pick(w.observeReply, Observes(s, id, w))))
  }

  /** The moments of the admission: inspecting what is retained, and committing under the revision inspected. */
  function AtInspection(s: State, w: RunWeather): State
    requires |w.gaps| == 8
  {
    Run(s, w.gaps[6])
  }

  function AtAdmission(s: State, id: nat, observation: nat, w: RunWeather): State
    requires |w.gaps| == 8
  {
    Run(Step(AtInspection(s, w), Prepare(id, observation, w.source, w.blobs)), w.gaps[7])
  }

  /** Nobody has committed since the inspection, and the journal and the disk take the admission. */
  predicate Admits(s: State, id: nat, observation: nat, w: RunWeather)
    requires |w.gaps| == 8
  {
    && AtAdmission(s, id, observation, w).revision == AtInspection(s, w).revision
    && w.journalAppends && w.admitLands
  }

  /** What an admission reports, from a retained successful observation. */
  function AdmissionResult(s: State, id: nat, observation: nat, w: RunWeather): RunResult
    requires |w.gaps| == 8
  {
    var outcome := Pick(w.admitReply, Admits(s, id, observation, w));
    if !w.verifies then Rejected
    else if w.source in AtInspection(s, w).accepted then if w.same then AlreadyAdmitted else Rejected
    else if outcome.Returned? then Admitted else AdmissionThrew(outcome)
  }

  class Host {
    var state: State
    ghost var history: seq<Event>

    constructor ()
      ensures Valid() && state == REGISTERED
    {
      state, history := REGISTERED, [];
    }

    ghost predicate Valid()
      reads this
    {
      state == Run(REGISTERED, history) && Inv(state)
    }

    method Do(e: Event)
      requires Valid()
      modifies this
      ensures Valid() && state == Step(old(state), e) && history == old(history) + [e]
    {
      hide Step, Inv;
      StepKeeps(state, e);
      state := Step(state, e);
      history := history + [e];
      assert history[..|history| - 1] == old(history);
    }

    /** The other processes take any number of steps. */
    method Others(id: nat, events: seq<Event>)
      requires Valid() && forall i :: 0 <= i < |events| ==> !ActsFor(events[i], id)
      modifies this
      ensures Valid() && At(state, id) == old(At(state, id)) && state == Run(old(state), events)
      ensures history == old(history) + events
      ensures Retains(old(state), state)
    {
      hide Step, Inv, Run, Retains;
      StepRetainsNothing(state);
      RunsNothing(state, events);
      for n := 0 to |events|
        invariant Valid() && At(state, id) == old(At(state, id)) && Retains(old(state), state)
        invariant state == Run(old(state), events[..n]) && history == old(history) + events[..n]
      {
        RunsOneMore(old(state), events, n);
        OthersLeaveMe(state, events[n], id);
        StepRetains(state, events[n]);
        RetainsTransitive(old(state), state, Step(state, events[n]));
        Do(events[n]);
        assert events[..n + 1] == events[..n] + [events[n]];
      }
      assert events[..|events|] == events;
    }

    /** Read the registration, refuse a started Attempt, and allocate an output directory nobody else has. */
    method AllocateOutput(id: nat, w: RunWeather) returns (refused: Option<RunResult>)
      requires Valid() && id !in state.processes && OthersOnly(w.gaps, id)
      modifies this
      ensures Valid()
      ensures refused == if AtRead(old(state), id, w).started then Some(AlreadyLaunched)
                         else if !Starts(old(state), id, w) then Some(NoDirectory) else None
      ensures refused.None? ==>
                && state == Step(AtAllocation(old(state), id, w), Allocate(id, w.directory))
                && At(state, id) == Allocated(AtRead(old(state), id, w).revision, w.directory)
      ensures history
              == old(history) + Opening(id, w) + if refused.None? then [Allocate(id, w.directory)] else []
    {
      hide Inv, Run, Retains;
      Do(Arrive(id));
      Others(id, w.gaps[0]);
      Do(ReadRoot(id));
      Others(id, w.gaps[1]);
      if !At(state, id).HasRoot? { return Some(AlreadyLaunched); }
      if w.directory in state.directories { return Some(NoDirectory); }
      Do(Allocate(id, w.directory));
      return None;
    }

    /** The launch transaction; an ordinary error gives the directory back, any other keeps it. */
    method CommitLaunch(id: nat, w: RunWeather) returns (outcome: Outcome<()>)
      requires Valid() && Honest(w.launchReply)
      requires At(state, id).Allocated? && At(state, id).directory == w.directory
      modifies this
      ensures Valid()
      ensures outcome == Pick(w.launchReply,
                              && old(state).revision == old(At(state, id)).revision
                              && w.journalStarts && w.launchLands)
      ensures history == old(history) + [Launch(id, w.journalStarts, w.launchLands, outcome, w.removes)]
      ensures state == Step(old(state), Launch(id, w.journalStarts, w.launchLands, outcome, w.removes))
      ensures outcome.Returned? ==> At(state, id) == Dispatching(w.directory)
      ensures outcome.CommittedError? ==> state.launch == Some(w.directory)
      ensures outcome.CommittedError? || outcome.CommitUncertain? ==> w.directory in state.directories
      ensures outcome.Failed? && w.removes ==> w.directory !in state.directories
    {
      hide Inv, Run;
      MyProcess(state, id);
      PendingUntilMoved(state, id);
      var lands := LaunchLands(state, Launch(id, w.journalStarts, w.launchLands, Failed, w.removes));
      outcome := Pick(w.launchReply, lands);
      Do(Launch(id, w.journalStarts, w.launchLands, outcome, w.removes));
    }

    /**
     * Retain what the transport delivered, well or badly: read the revision, then commit an observation under it. It is
     * durable exactly when nobody committed in between and the disk took it.
     */
    method RetainObservation(id: nat, w: RunWeather) returns (retained: bool, observation: nat)
      requires Valid() && Honest(w.observeReply) && OthersOnly(w.gaps, id)
      requires At(state, id) == Ran(w.directory, w.ok)
      modifies this
      ensures Valid() && Retains(old(state), state) && old(history) <= history
      ensures retained <==> Pick(w.observeReply, Observes(old(state), id, w)).Returned?
      ensures observation == |AtObservation(old(state), id, w).observations|
      ensures state.observations
              == AtObservation(old(state), id, w).observations
                 + if Observes(old(state), id, w) then [Observation(w.directory, w.ok)] else []
      ensures At(state, id) == if retained && w.ok then Noted(observation) else Stopped
      ensures state == AfterObservation(old(state), id, w)
    {
      hide Inv, Run, Retains;
      ghost var before := state;
      Others(id, w.gaps[4]);
      ghost var s := state;
      StepRetains(s, ReadRevision(id));
      Do(ReadRevision(id));
      RetainsTransitive(before, s, state);
      Others(id, w.gaps[5]);
      RetainsTransitive(before, Step(s, ReadRevision(id)), state);
      observation := |state.observations|;
      var lands := ObserveLands(state, Observe(id, w.observeLands, Failed));
      var outcome := Pick(w.observeReply, lands);
      var e := Observe(id, w.observeLands, outcome);
      StepRetains(state, e);
      RetainsTransitive(before, state, Step(state, e));
      Do(e);
      retained := outcome.Returned?;
    }

    /**
     * `admitGaapOutput`: the receipt, the accepted row and the blobs, in one transaction. A source admitted before is
     * admitted already when it holds the same evidence, and a conflict otherwise; a new one is accepted exactly when
     * nobody committed since the inspection and journal and disk take it.
     */
    method AdmitOutput(id: nat, observation: nat, w: RunWeather) returns (result: RunResult)
      requires Valid() && Honest(w.admitReply) && OthersOnly(w.gaps, id)
      requires At(state, id) == Noted(observation)
      modifies this
      ensures Valid() && Retains(old(state), state) && old(history) <= history
      ensures result == AdmissionResult(old(state), id, observation, w)
      ensures result.Admitted? || result.AlreadyAdmitted? || result.AdmissionThrew? || result.Rejected?
      ensures result.Admitted? || result.AlreadyAdmitted?
              || (result.AdmissionThrew? && result.error.CommittedError?) ==>
                w.source in state.accepted
    {
      hide Inv, Run, Retains, DatabaseOf;
      ghost var before := state;
      Others(id, w.gaps[6]);
      if !w.verifies { return Rejected; }
      ghost var inspected := state;
      ghost var past := history;
      var known := w.source in state.accepted;
      var p := Prepare(id, observation, w.source, w.blobs);
      NotedIsBound(state, id);
      StepRetains(state, p);
      RetainsTransitive(before, state, Step(state, p));
      Do(p);
      ghost var prepared := state;
      Others(id, w.gaps[7]);
      RetainsTransitive(before, prepared, state);
      if known {
        KnownStays(inspected, prepared, state, w.source);
        return if w.same then AlreadyAdmitted else Rejected;
      }
      var lands := AdmitLands(state, Admit(id, w.journalAppends, w.admitLands, Failed));
      UnchangedSince(past, p, w.gaps[7], w.source);
      var outcome := Pick(w.admitReply, lands);
      var e := Admit(id, w.journalAppends, w.admitLands, outcome);
      StepRetains(state, e);
      RetainsTransitive(before, state, Step(state, e));
      Do(e);
      return if outcome.Returned? then Admitted else AdmissionThrew(outcome);
    }

    /** Up to the spawn: refused, or the launch threw, or the executor was dispatched under a durable launch row. */
    method LaunchAndDispatch(id: nat, w: RunWeather) returns (stopped: Option<RunResult>)
      requires Valid() && id !in state.processes && OthersOnly(w.gaps, id)
      requires Honest(w.launchReply) && (w.ok ==> w.spawns)
      modifies this
      ensures Valid()
      ensures stopped == if AtRead(old(state), id, w).started then Some(AlreadyLaunched)
                         else if !Starts(old(state), id, w) then Some(NoDirectory)
                         else if !Pick(w.launchReply, Launches(old(state), id, w)).Returned?
                         then Some(LaunchThrew(Pick(w.launchReply, Launches(old(state), id, w)))) else None
      ensures stopped.Some? && !stopped.value.LaunchThrew? ==> history == old(history) + Opening(id, w)
      ensures stopped.Some? && stopped.value.LaunchThrew? ==>
                && history == old(history) + Launching(id, w, stopped.value.error)
                && (!stopped.value.error.Failed? ==> w.directory in state.directories)
                && (stopped.value.error.Failed? && w.removes ==> w.directory !in state.directories)
                && (stopped.value.error.CommittedError? ==> state.launch == Some(w.directory))
      ensures stopped.None? ==>
                && history
                   == old(history) + Dispatched(id, w, Pick(w.launchReply, Launches(old(state), id, w)))
                && state.launch == Some(w.directory) && Settled(state)
                && state.spawned == (if w.spawns then [w.directory] else [])
                && At(state, id) == Ran(w.directory, w.ok)
                && state == AfterDispatch(old(state), id, w)
    {
      hide Inv, Run, Retains, Step, Settled;
      var refused := AllocateOutput(id, w);
      if refused.Some? { return refused; }
      Others(id, w.gaps[2]);
      var launched := CommitLaunch(id, w);
      if !launched.Returned? { return Some(LaunchThrew(launched)); }
      Others(id, w.gaps[3]);
      DispatchSpawns(state, id, w.directory, w.spawns, w.ok);
      Do(Dispatch(id, w.spawns, w.ok));
      return None;
    }

    /**
     * `runGaapExecutor`, as one runner lives it. Its steps are steps of the machine above, so every run theorem holds
     * of it. It is refused exactly when the Attempt had started when it read the root, or its directory was taken;
     * its launch lands exactly when nobody committed since that read and the journal and the disk take it; and what
     * it reports about its own launch is true, whatever the other processes did in the gaps. An ordinary launch error
     * gives the directory back; a committed or uncertain one keeps it.
     */
    method RunGaapExecutor(id: nat, w: RunWeather) returns (result: RunResult, dispatched: bool)
      requires Valid() && id !in state.processes && OthersOnly(w.gaps, id)
      requires Honest(w.launchReply) && Honest(w.observeReply) && Honest(w.admitReply) && (w.ok ==> w.spawns)
      modifies this
      ensures Valid()
      ensures result.AlreadyLaunched? <==> AtRead(old(state), id, w).started
      ensures result.NoDirectory? <==> !AtRead(old(state), id, w).started && !Starts(old(state), id, w)
      ensures result.LaunchThrew? <==>
                Starts(old(state), id, w) && !Pick(w.launchReply, Launches(old(state), id, w)).Returned?
      ensures dispatched <==> !result.AlreadyLaunched? && !result.NoDirectory? && !result.LaunchThrew?
      ensures result.AlreadyLaunched? || result.NoDirectory? ==> history == old(history) + Opening(id, w)
      ensures result.LaunchThrew? ==>
                && result.error == Pick(w.launchReply, Launches(old(state), id, w))
                && history == old(history) + Launching(id, w, result.error)
                && (!result.error.Failed? ==> w.directory in state.directories)
                && (result.error.Failed? && w.removes ==> w.directory !in state.directories)
                && (result.error.CommittedError? ==> state.launch == Some(w.directory))
      ensures dispatched ==>
                && old(history) + Dispatched(id, w, Pick(w.launchReply, Launches(old(state), id, w))) <= history
                && state.launch == Some(w.directory)
                && state.spawned == if w.spawns then [w.directory] else []
      ensures dispatched ==>
                var spawned := AfterDispatch(old(state), id, w);
                result == (if !Pick(w.observeReply, Observes(spawned, id, w)).Returned? then ObservationThrew
                           else if !w.ok then TransportFailed
                           else AdmissionResult(
                                  AfterObservation(spawned, id, w), id,
                                  |AtObservation(spawned, id, w).observations|, w))
      ensures result.Admitted? || result.AlreadyAdmitted?
              || (result.AdmissionThrew? && result.error.CommittedError?) ==>
                w.ok && w.source in state.accepted
    {
      hide Inv, Run, Retains, Step, Settled, Launches, AtRead, AtAllocation, Opening, Launching, Dispatched,
        AfterDispatch, AfterObservation, AtObservation, AdmissionResult, Observes;
      var stopped := LaunchAndDispatch(id, w);
      if stopped.Some? { return stopped.value, false; }
      dispatched := true;
      ghost var spawned := state;
      var retained, observation := RetainObservation(id, w);
      SpawnLasts(spawned, state);
      if !retained { return ObservationThrew, true; }
      if !w.ok { return TransportFailed, true; }
      ghost var noted := state;
      result := AdmitOutput(id, observation, w);
      SpawnLasts(noted, state);
    }
  }

  lemma RunsNothing(s: State, events: seq<Event>)
    ensures Run(s, events[..0]) == s
  {
  }

  lemma RunsOneMore(s: State, events: seq<Event>, n: nat)
    requires n < |events|
    ensures Run(s, events[..n + 1]) == Step(Run(s, events[..n]), events[n])
  {
    assert events[..n + 1][..n] == events[..n];
  }

  /** A root read as pending is pending until somebody commits, so nothing has been launched until then. */
  lemma PendingUntilMoved(s: State, id: nat)
    requires Inv(s) && At(s, id).Allocated?
    ensures s.revision == At(s, id).revision ==> s.launch.None?
  {
    hide EvidenceInv;
    MyProcess(s, id);
  }

  lemma MyProcess(s: State, id: nat)
    requires Inv(s)
    ensures id in s.processes ==> PcInv(s, At(s, id))
  {
    hide LaunchInv, EvidenceInv;
  }

  lemma DispatchSpawns(s: State, id: nat, directory: string, spawns: bool, ok: bool)
    requires Inv(s) && At(s, id) == Dispatching(directory) && (ok ==> spawns)
    ensures
      var t := Step(s, Dispatch(id, spawns, ok));
      && t.spawned == (if spawns then [directory] else [])
      && t.launch == Some(directory) && At(t, id) == Ran(directory, ok) && Settled(t)
  {
    MyProcess(s, id);
    forall other | other in s.processes && other != id ensures !s.processes[other].Dispatching? {
      assert At(s, other) == s.processes[other] && Compatible(At(s, id), At(s, other));
    }
  }

  lemma SpawnLasts(s: State, t: State)
    requires Settled(s) && Retains(s, t)
    ensures Settled(t) && t.launch == s.launch && t.spawned == s.spawned
  {
  }

  lemma RetainsTransitive(s: State, t: State, u: State)
    requires Retains(s, t) && Retains(t, u)
    ensures Retains(s, u)
  {
  }

  lemma NotedIsBound(s: State, id: nat)
    requires Inv(s) && At(s, id).Noted?
    ensures Bound(s, At(s, id).observation)
  {
    hide ProcessInv, LaunchInv;
    assert Grounded(s, At(s, id));
  }

  lemma KnownStays(s: State, t: State, u: State, source: string)
    requires source in s.accepted && t.accepted == s.accepted && Retains(t, u)
    ensures source in u.accepted
  {
  }

  /** A source that was new at the inspection is new as long as nobody commits. */
  lemma UnchangedSince(past: seq<Event>, p: Event, gap: seq<Event>, source: string)
    requires p.Prepare?
    ensures
      var s, t := Run(REGISTERED, past), Run(REGISTERED, past + [p] + gap);
      t.revision == s.revision ==> t.accepted == s.accepted
  {
    hide Run, Step;
    assert past + [p] + gap == past + ([p] + gap);
    RevisionNamesDatabase(past, [p] + gap);
  }
}

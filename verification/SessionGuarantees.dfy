/** What the whole controller guarantees about a session, in terms of the rows a reader of the store would find. */
module SessionGuarantees {
  import opened Options
  import opened Lifecycle
  import opened SessionTrace
  import opened StoreTables
  import opened StoreInvariant
  import opened StoreRuns
  import opened SessionService
  import opened ServiceRuns
  import opened ServedTraces

  ghost function ViewAfter(codec: Codec, steps: seq<Step>, session: string): View
    requires Known(After(codec, steps), session)
  {
    ViewOf(After(codec, steps), session)
  }

  /** A valid trace stands behind the rows of every session of a serviced run. */
  lemma TraceBehindView(codec: Codec, steps: seq<Step>, preparations: seq<Preparation>, session: string)
    returns (trace: seq<Applied>)
    requires Lawful(codec) && Serviced(codec, steps, preparations) && session in After(codec, steps).sessions
    ensures trace == TraceOf(codec, steps, session)
    ensures Known(After(codec, steps), session)
    ensures Valid(trace) && Describes(trace, ViewAfter(codec, steps, session).transitions)
    ensures Prompted(steps, preparations) ==> Current(trace)
    ensures SessionInv(codec, session, ViewAfter(codec, steps, session))
    ensures StateAfter(trace) == ViewAfter(codec, steps, session).task.status
    ensures BlockedFromAfter(trace) == ViewAfter(codec, steps, session).task.blockedFrom
    ensures RepairEntries(trace) == RepairCount(ViewAfter(codec, steps, session).transitions)
    ensures PlanBoundBy(trace) == ViewAfter(codec, steps, session).plan
  {
    hide After, Serviced, Prompted, Current, SessionInv, TraceOf, Valid, Lawful, PhaseAfter, PlanBoundBy;
    trace := TraceOf(codec, steps, session);
    KnownAt(codec, steps, session);
    TraceMatchesStore(codec, steps, preparations, session);
    ServicedHistoryIsValid(codec, steps, preparations, session);
    DescribedView(codec, session, ViewAfter(codec, steps, session), trace);
  }

  // ----- repair budget

  lemma DescribedRow(trace: seq<Applied>, rows: seq<Transition>, i: nat)
    requires Describes(trace, rows) && i < |rows|
    ensures |trace| == |rows| && trace[i].source == rows[i].source && trace[i].target == rows[i].target
  {
  }

  /**
   * No session is repaired before its first review; and where callers expect what was read, none is repaired more than
   * three times.
   */
  lemma StoredRepairBudget(codec: Codec, steps: seq<Step>, preparations: seq<Preparation>, session: string)
    requires Lawful(codec) && Serviced(codec, steps, preparations) && session in After(codec, steps).sessions
    ensures Known(After(codec, steps), session)
    ensures Prompted(steps, preparations) ==>
              RepairCount(ViewAfter(codec, steps, session).transitions) <= REPAIR_BUDGET
    ensures
      var rows := ViewAfter(codec, steps, session).transitions;
      forall i :: 0 <= i < |rows| && rows[i].target == Repairing ==>
        exists j :: 0 <= j < i && rows[j].target == Reviewing
  {
    hide After, Serviced, Prompted, Current, SessionInv, TraceOf, Valid, Lawful, ViewAfter, Describes, RepairEntries,
      StateAfter;
    var trace := TraceBehindView(codec, steps, preparations, session);
    if Prompted(steps, preparations) { RepairBudgetHolds(trace); }
    var rows := ViewAfter(codec, steps, session).transitions;
    forall i | 0 <= i < |rows| && rows[i].target == Repairing
      ensures exists j :: 0 <= j < i && rows[j].target == Reviewing
    {
      DescribedRow(trace, rows, i);
      RepairsFollowReview(trace, i);
      var j :| 0 <= j < i && trace[j].target == Reviewing;
      DescribedRow(trace, rows, j);
    }
  }

  // ----- the phase is one-way

  /** Once a session has been in review, it and the state it is blocked from stay on the post-PR side. */
  lemma StoredPhaseIsOneWay(codec: Codec, steps: seq<Step>, preparations: seq<Preparation>, session: string, i: nat)
    requires Lawful(codec) && Serviced(codec, steps, preparations) && session in After(codec, steps).sessions
    requires Known(After(codec, steps), session)
    requires i < |ViewAfter(codec, steps, session).transitions|
    requires ViewAfter(codec, steps, session).transitions[i].target == Reviewing
    ensures
      var task := ViewAfter(codec, steps, session).task;
      && task.status in AFTER_REVIEW + {Blocked}
      && (task.blockedFrom.Some? ==> task.blockedFrom.value in AFTER_REVIEW - {Completed})
  {
    hide After, Serviced, Prompted, Current, SessionInv, TraceOf, Valid, Lawful, ViewAfter, Describes, RepairEntries,
      StateAfter;
    var trace := TraceBehindView(codec, steps, preparations, session);
    DescribedRow(trace, ViewAfter(codec, steps, session).transitions, i);
    PhaseIsOneWay(trace, |trace|);
    assert trace[..|trace|] == trace;
  }

  /** With blocks and recoveries left out, a stored history is a walk along the forward graph from `queued`. */
  lemma StoredHistoryIsForwardPath(codec: Codec, steps: seq<Step>, preparations: seq<Preparation>, session: string)
    requires Lawful(codec) && Serviced(codec, steps, preparations) && session in After(codec, steps).sessions
    ensures Known(After(codec, steps), session)
    ensures
      var task := ViewAfter(codec, steps, session).task;
      var walk := Erase(TraceOf(codec, steps, session));
      && ForwardPath(walk)
      && StateAfter(walk) == (if task.status == Blocked then task.blockedFrom.GetOr(Queued) else task.status)
      && RepairEntries(walk) == RepairCount(ViewAfter(codec, steps, session).transitions)
  {
    hide After, Serviced, Prompted, Current, SessionInv, TraceOf, Valid, Lawful, ViewAfter, Describes, RepairEntries,
      StateAfter, ForwardPath, Erase;
    var trace := TraceBehindView(codec, steps, preparations, session);
    BlockingIsAStutter(trace);
  }

  // ----- completion

  predicate RowOnlyAt(rows: seq<Transition>, source: TaskStatus, target: TaskStatus, k: int) {
    && 0 <= k < |rows|
    && forall i :: 0 <= i < |rows| ==> (rows[i].source == source && rows[i].target == target <==> i == k)
  }

  lemma OnlyAtRows(trace: seq<Applied>, rows: seq<Transition>, source: TaskStatus, target: TaskStatus, k: int)
    requires Describes(trace, rows) && OnlyAt(trace, source, target, k)
    ensures RowOnlyAt(rows, source, target, k)
  {
    forall i | 0 <= i < |rows| ensures rows[i].source == source && rows[i].target == target <==> i == k {
      assert IsStep(trace[i], source, target) <==> i == k;
    }
  }

  /**
   * A completed session has exactly one plan-binding row and exactly one review-entry row, in that order, and the plan
   * it holds is the one bound there; the entry carried a clean review of the live HEAD, and the last row completed it
   * under a current, unblocked, human-approved, merged review with passing proof.
   */
  lemma CompletedSessionWalkedThePath(
    codec: Codec, steps: seq<Step>, preparations: seq<Preparation>, session: string)
    requires Lawful(codec) && Serviced(codec, steps, preparations) && session in After(codec, steps).sessions
    requires Known(After(codec, steps), session) && ViewAfter(codec, steps, session).task.status == Completed
    ensures
      var rows, trace := ViewAfter(codec, steps, session).transitions, TraceOf(codec, steps, session);
      && |trace| == |rows|
      && (exists p, r ::
            && 0 <= p < r < |rows| - 1
            && RowOnlyAt(rows, Framed, ProofReady, p)
            && RowOnlyAt(rows, PrePrReviewing, Reviewing, r)
            && ViewAfter(codec, steps, session).plan.Some?
            && ViewAfter(codec, steps, session).plan == trace[p].context.boundPlan
            && EntersReviewClean(trace[r]))
      && RowOnlyAt(rows, ReadyForHuman, Completed, |rows| - 1)
      && CompletesUnderAuthority(trace[|rows| - 1])
  {
    hide After, Serviced, Prompted, Current, SessionInv, TraceOf, Lawful, ViewAfter, RepairEntries, Valid,
      PlanBoundBy, EntersReviewClean, CompletesUnderAuthority, OnlyAt, RowOnlyAt, StateAfter, PhaseAfter, Describes,
      IsStep;
    var trace := TraceBehindView(codec, steps, preparations, session);
    var rows := ViewAfter(codec, steps, session).transitions;
    DescribedLength(trace, rows);
    CompletionNeedsTheWholePath(trace);
    var p, r :|
      && 0 <= p < r < |trace| - 1
      && OnlyAt(trace, Framed, ProofReady, p) && BindsPlan(trace[p])
      && OnlyAt(trace, PrePrReviewing, Reviewing, r) && EntersReviewClean(trace[r]);
    OnlyAtRows(trace, rows, Framed, ProofReady, p);
    OnlyAtRows(trace, rows, PrePrReviewing, Reviewing, r);
    PlanBoundThere(trace, p);
    CompletionRow(trace, rows);
  }

  lemma DescribedLength(trace: seq<Applied>, rows: seq<Transition>)
    requires Describes(trace, rows)
    ensures |trace| == |rows|
  {
  }

  lemma CompletionRow(trace: seq<Applied>, rows: seq<Transition>)
    requires Describes(trace, rows) && trace != [] && CompletesUnderAuthority(trace[|trace| - 1])
    requires forall i :: 0 <= i < |trace| && trace[i].target == Completed ==> i == |trace| - 1
    ensures RowOnlyAt(rows, ReadyForHuman, Completed, |rows| - 1)
  {
  }

  lemma {:induction false} PlanBoundThere(trace: seq<Applied>, p: nat)
    requires OnlyAt(trace, Framed, ProofReady, p)
    ensures PlanBoundBy(trace) == trace[p].context.boundPlan
  {
    var n := |trace| - 1;
    assert IsStep(trace[n], Framed, ProofReady) <==> n == p;
    if p < n {
      forall i | 0 <= i < n ensures IsStep(trace[..n][i], Framed, ProofReady) <==> i == p {
        assert trace[..n][i] == trace[i];
      }
      PlanBoundThere(trace[..n], p);
    }
  }
}

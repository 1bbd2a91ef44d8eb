/**
 * `transitionSession` of src/services/session-service.ts, step by step: it reads, other writers commit, it reads again,
 * and at the end it asks the store.
 */
module TransitionService {
  import opened Options
  import opened Rows
  import opened StoreTables
  import opened SessionStore
  import opened StoreSteps
  import opened StoreRuns
  import opened Store
  import opened SessionService
  import opened ServiceRuns

  class Service {
    const store: SqliteStore
    /** Every transaction committed so far, by anyone. */
    ghost var steps: seq<Step>

    constructor (store: SqliteStore)
      requires store.tables == EMPTY_TABLES && Lawful(store.codec)
      ensures this.store == store && steps == [] && Valid()
    {
      this.store := store;
      steps := [];
    }

    ghost predicate Valid()
      reads this, store
    {
      Lawful(store.codec) && store.tables == After(store.codec, steps)
    }

    /** One transaction by another caller. */
    method Other(step: Step)
      requires Valid()
      modifies this, store
      ensures Valid() && steps == old(steps) + [step]
    {
      hide After, Next, Lawful;
      AfterStep(store.codec, steps, step);
      Perform(step);
      steps := steps + [step];
    }

    method Perform(step: Step)
      modifies store
      ensures store.tables == Next(store.codec, old(store.tables), step)
    {
      hide Next, ApplyTransition, AppendGate, AppendSignedGate, AppendReview, Lawful, StoreInv;
      match step {
      case Start(taskId, session, eventId, now) =>
        var _ := store.InsertTaskSession(taskId, session, eventId, now);
      case Deliver(call, supply) =>
        DeliverIsApply(store.codec, store.tables, call, supply);
        var _ := store.ApplySessionTransition(call, supply);
      case RecordGate(session, gate, eventId, now) =>
        AppendIsNext(store.codec, store.tables, step);
        var _ := store.AppendGateReceipt(session, gate, eventId, now);
      case ImportSignedGate(session, signedGate, eventId, now, promoted) =>
        AppendIsNext(store.codec, store.tables, step);
        var _ := store.AppendSignedGateReceipt(session, signedGate, eventId, now, promoted);
      case ImportReview(session, review, eventId, now, promoted) =>
        AppendIsNext(store.codec, store.tables, step);
        var _ := store.AppendSignedReviewReceipt(session, review, eventId, now, promoted);
      }
    }

    /** Other callers commit any number of transactions. */
    method Others(more: seq<Step>)
      requires Valid()
      modifies this, store
      ensures Valid() && steps == old(steps) + more
    {
      hide After, Lawful;
      for n := 0 to |more|
        invariant Valid() && steps == old(steps) + more[..n]
      {
        Other(more[n]);
        assert more[..n + 1] == more[..n] + [more[n]];
      }
      assert more[..|more|] == more;
    }

    /** What a read snapshot shows of one session. */
    method Read(session: string) returns (view: Option<View>)
      requires Valid()
      ensures view.Some? <==> session in store.tables.sessions
      ensures view.Some? ==> Known(store.tables, session) && ViewOf(store.tables, session) == view.value
      ensures view.Some? ==> IsViewAt(store.codec, steps, |steps|, session, view.value)
    {
      assert steps[..|steps|] == steps;
      ReachableInv(store.codec, steps);
      KnownTables(store.codec, store.tables);
      return if Known(store.tables, session) then Some(ViewOf(store.tables, session)) else None;
    }

    /** A session that was there is still there. */
    method Reread(session: string, ghost since: nat) returns (view: View)
      requires Valid() && since <= |steps| && session in After(store.codec, steps[..since]).sessions
      ensures IsViewAt(store.codec, steps, |steps|, session, view)
    {
      hide After, StoreInv;
      RunGrows(store.codec, steps, since, |steps|, session);
      assert steps[..|steps|] == steps;
      var read := Read(session);
      view := read.value;
    }

    /** The lifecycle, then whether the key is already recorded. */
    method ReadLifecycle(session: string, key: string, before: seq<Step>, between: seq<Step>)
      returns (lifecycle: Option<View>, recorded: bool, ghost lifecycleAt: nat, ghost keyAt: nat)
      requires Valid()
      modifies this, store
      ensures Valid() && steps == old(steps) + before + between
      ensures lifecycleAt <= keyAt == |steps|
      ensures lifecycle.None? ==> session !in After(store.codec, steps[..lifecycleAt]).sessions
      ensures lifecycle.Some? ==>
                && session in After(store.codec, steps[..lifecycleAt]).sessions
                && IsViewAt(store.codec, steps, lifecycleAt, session, lifecycle.value)
      ensures recorded == KeyRecordedAt(store.codec, steps, keyAt, session, key)
    {
      hide After, ViewOf, Lawful;
      Others(before);
      lifecycleAt := |steps|;
      ghost var first := steps;
      lifecycle := Read(session);
      assert first[..lifecycleAt] == first;
      Others(between);
      keyAt := |steps|;
      recorded := FindDecision(Of(store.tables.decisions, session), key).Some?;
      assert steps[..lifecycleAt] == first && steps[..keyAt] == steps;
    }

    /** One more reading of a session that is there, after other callers have had their turn. */
    method ReadLater(session: string, ghost since: nat, more: seq<Step>) returns (view: View, ghost at: nat)
      requires Valid() && since <= |steps| && session in After(store.codec, steps[..since]).sessions
      modifies this, store
      ensures Valid() && steps == old(steps) + more && at == |steps|
      ensures session in After(store.codec, steps[..since]).sessions
      ensures IsViewAt(store.codec, steps, at, session, view)
    {
      hide After, ViewOf, Lawful;
      ghost var first := steps;
      Others(more);
      assert steps[..since] == first[..since];
      view := Reread(session, since);
      at := |steps|;
    }

    /** The watermark, then the evidence without a HEAD, then the evidence at the observed HEAD. */
    method ReadEvidence(
      session: string, ghost since: nat, toWatermark: seq<Step>, toPreliminary: seq<Step>, toEvidence: seq<Step>)
      returns (watermark: View, preliminary: View, evidence: View,
               ghost watermarkAt: nat, ghost preliminaryAt: nat, ghost evidenceAt: nat)
      requires Valid() && since <= |steps| && session in After(store.codec, steps[..since]).sessions
      modifies this, store
      ensures Valid() && steps == old(steps) + toWatermark + toPreliminary + toEvidence
      ensures |old(steps)| <= watermarkAt <= preliminaryAt <= evidenceAt == |steps|
      ensures IsViewAt(store.codec, steps, watermarkAt, session, watermark)
      ensures IsViewAt(store.codec, steps, preliminaryAt, session, preliminary)
      ensures IsViewAt(store.codec, steps, evidenceAt, session, evidence)
    {
      hide After, IsViewAt, Lawful;
      watermark, watermarkAt := ReadLater(session, since, toWatermark);
      ViewStays(store.codec, steps, toPreliminary, watermarkAt, session, watermark);
      preliminary, preliminaryAt := ReadLater(session, since, toPreliminary);
      ViewStays(store.codec, steps, toEvidence, watermarkAt, session, watermark);
      ViewStays(store.codec, steps, toEvidence, preliminaryAt, session, preliminary);
      evidence, evidenceAt := ReadLater(session, since, toEvidence);
    }

    /** Every read of one preparation, in the order the source takes them. */
    method Prepare(
      request: TransitionRequest, key: string, gaps: seq<seq<Step>>, observed: Observation, prepared: PreparedPlan)
      returns (call: TransitionCall, ghost p: Preparation)
      requires Valid() && |gaps| == 6
      modifies this, store
      ensures Valid() && old(steps) <= steps
      ensures call.request == request && call.key == key && p.observed == observed && p.prepared == prepared
      ensures PreparedBy(store.codec, steps, |steps|, call, p)
    {
      hide After, IsViewAt, KeyRecordedAt, PrepareCall, Lawful;
      var session := request.sessionId;
      var lifecycle, recorded;
      ghost var lifecycleAt, keyAt;
      lifecycle, recorded, lifecycleAt, keyAt := ReadLifecycle(session, key, gaps[0], gaps[1]);
      var taken := Snapshots(None, NO_VIEW, NO_VIEW, NO_VIEW);
      p := Preparation(lifecycleAt, keyAt, keyAt, keyAt, keyAt, taken, observed, prepared);
      ghost var first := steps;
      if lifecycle.Some? {
        var watermark, preliminary, evidence;
        ghost var watermarkAt, preliminaryAt, evidenceAt;
        watermark, preliminary, evidence, watermarkAt, preliminaryAt, evidenceAt :=
          ReadEvidence(session, lifecycleAt, gaps[2], gaps[3], gaps[4]);
        ViewStays(store.codec, first, gaps[2] + gaps[3] + gaps[4], lifecycleAt, session, lifecycle.value);
        assert steps == first + (gaps[2] + gaps[3] + gaps[4]);
        taken := Snapshots(lifecycle, watermark, preliminary, evidence);
        p := Preparation(
          lifecycleAt, keyAt, watermarkAt, preliminaryAt, evidenceAt, taken, observed, prepared);
      }
      assert steps[..lifecycleAt] == first[..lifecycleAt];
      KeyStays(store.codec, first, steps, keyAt, session, key);
      call := PrepareCall(store.codec, request, key, recorded, taken, observed, prepared);
      PreparedKeepsRequest(store.codec, request, key, recorded, taken, observed, prepared);
      ghost var before := steps;
      assert PreparedBy(store.codec, before, |before|, call, p);
      Others(gaps[5]);
      PreparedLater(store.codec, before, gaps[5], |before|, call, p);
    }

    /**
     * The reads and the transaction. The answer is the store's answer to a call prepared from reads taken in this order
     * during the run, so every theorem about serviced runs is a theorem about this code.
     */
    method TransitionSession(
      request: TransitionRequest, key: string, gaps: seq<seq<Step>>, observed: Observation, prepared: PreparedPlan,
      supply: Supply)
      returns (outcome: Outcome, ghost call: TransitionCall, ghost p: Preparation)
      requires Valid() && |gaps| == 6
      modifies this, store
      ensures Valid() && old(steps) <= steps && steps != [] && steps[|steps| - 1] == Deliver(call, supply)
      ensures call.request == request && call.key == key && p.observed == observed && p.prepared == prepared
      ensures PreparedBy(store.codec, steps, |steps| - 1, call, p)
      ensures outcome == ApplyTransition(store.codec, After(store.codec, steps[..|steps| - 1]), call, supply).1
    {
      hide After, PreparedBy, ApplyTransition, Lawful;
      var ask;
      ask, p := Prepare(request, key, gaps, observed, prepared);
      call := ask;
      ghost var before := steps;
      AfterStep(store.codec, before, Deliver(ask, supply));
      DeliverIsApply(store.codec, store.tables, ask, supply);
      outcome := store.ApplySessionTransition(ask, supply);
      steps := steps + [Deliver(ask, supply)];
      PreparedLater(store.codec, before, [Deliver(ask, supply)], |before|, call, p);
      assert steps[..|steps| - 1] == before;
    }
  }

  lemma ViewStays(codec: Codec, steps: seq<Step>, more: seq<Step>, at: nat, session: string, v: View)
    requires at <= |steps| && IsViewAt(codec, steps, at, session, v)
    ensures IsViewAt(codec, steps + more, at, session, v)
  {
    hide After, ViewOf;
    assert (steps + more)[..at] == steps[..at];
  }

  lemma KeyStays(codec: Codec, steps: seq<Step>, longer: seq<Step>, at: nat, session: string, key: string)
    requires at <= |steps| && steps <= longer
    ensures KeyRecordedAt(codec, longer, at, session, key) == KeyRecordedAt(codec, steps, at, session, key)
  {
    hide After;
    assert longer[..at] == steps[..at];
  }

  lemma DeliverIsApply(codec: Codec, db: Tables, call: TransitionCall, supply: Supply)
    ensures Next(codec, db, Deliver(call, supply)) == ApplyTransition(codec, db, call, supply).0
  {
    hide ApplyTransition;
  }

  lemma AppendIsNext(codec: Codec, db: Tables, step: Step)
    ensures
      match step
      case RecordGate(session, gate, eventId, now) =>
        Next(codec, db, step) == AppendGate(codec, db, session, gate, eventId, now).0
      case ImportSignedGate(session, signedGate, eventId, now, promoted) =>
        Next(codec, db, step) == AppendSignedGate(codec, db, session, signedGate, eventId, now, promoted).0
      case ImportReview(session, review, eventId, now, promoted) =>
        Next(codec, db, step) == AppendReview(codec, db, session, review, eventId, now, promoted).0
      case _ => true
  {
    hide AppendGate, AppendSignedGate, AppendReview;
  }
}

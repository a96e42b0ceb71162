/** Results and sweeps keep the invariant of the control plane. */
module Results {
  import opened Rows
  import opened Transactions
  import opened Lineage
  import opened Outbox
  import opened RepairMirror
  import opened Plans
  import opened AlertEdges
  import opened ControlPlane

  /** `done` is `db` after the first statement of a result or of a sweep iteration. */
  ghost predicate Finished(db: Db, e: Id, done: Db) {
    && e in db.executions && InFlight(db.executions[e].state)
    && exists state, startedAt :: !InFlight(state) && done == Finish(db, e, state, startedAt)
  }

  lemma FinishedFacts(db: Db, e: Id, done: Db, max: nat)
    requires Inv(db, max) && Finished(db, e, done)
    ensures Core(done, max) && Kept(db, done) && !Busy(done.executions, db.executions[e].monitor)
    ensures db.executions[e].attempt < max ==> ChildFits(done.executions, e, max)
    ensures forall i :: 0 <= i < |done.observations| ==> done.observations[i].execution != e
    ensures db.executions[e].monitor in db.monitors
  {
    var state, startedAt :| !InFlight(state) && done == Finish(db, e, state, startedAt);
    ProgressKeepsCore(db, e, state, startedAt, max);
    FinishedFits(db.executions, e, done.executions[e], max);
    forall i | 0 <= i < |done.observations| ensures done.observations[i].execution != e {
      assert SourceLaw(db.executions, db.observations, i);
    }
    assert ExecutionIdLaw(db, e);
  }

  /** A finished execution that is not a repair leaves the mirror intact. */
  lemma FinishedMirror(db: Db, e: Id, done: Db)
    requires MirrorInv(db.executions, db.repairs) && Finished(db, e, done) && !db.executions[e].kind.Repair?
    ensures MirrorInv(done.executions, done.repairs)
  {
    OtherProgressKeepsMirror(db.executions, db.repairs, e, done.executions[e]);
  }

  /** A replacement is as admissible as the row it replaces was. */
  lemma ReplacementFits(db: Db, e: Id, done: Db, max: nat)
    requires Inv(db, max) && Finished(db, e, done) && db.executions[e].attempt < max
    ensures done.nextId !in db.executions && Admissible(done, Replacement(db.executions[e], e))
    ensures LineageInv(done.executions[done.nextId := Replacement(db.executions[e], e)], max)
  {
    hide OutboxInv, MirrorInv, Kept;
    FinishedFacts(db, e, done, max);
    assert ExecutionIdLaw(db, done.nextId);
    ChildKeepsLineage(done.executions, e, done.nextId, max);
    assert PinnedLaw(db.revisions, db.executions, e) && FreshLaw(db.revisions, db.executions, e);
    assert TriggerLaw(done.executions, done.observations, e) && QuietLaw(db.monitors, db.executions, e);
  }

  /** The attempt moves along with a repair. */
  lemma MoveKeepsCore(db: Db, e: Id, inserted: Db, c: Id, max: nat)
    requires MirrorInv(db.executions, db.repairs) && Core(inserted, max) && inserted.repairs == db.repairs
    requires e in db.executions && InFlight(db.executions[e].state)
    ensures Core(inserted.(repairs := MoveRepair(db.repairs, e, c)), max)
    ensures Kept(inserted, inserted.(repairs := MoveRepair(db.repairs, e, c)))
  {
    hide Core, Kept;
    var ss := MoveRepair(db.repairs, e, c);
    forall a | a in ss ensures ss[a].candidate == db.repairs[a].candidate {
      assert TipLaw(db.executions, db.repairs, a);
    }
    RepairColumnsKeepCore(inserted, ss, max);
  }

  /** Replacement always finds its attempt and keeps the invariant. */
  lemma ReplaceKeeps(db: Db, e: Id, done: Db, max: nat)
    requires Inv(db, max) && Finished(db, e, done) && db.executions[e].attempt < max
    ensures Replace(done, e, db.executions[e]).Commit?
    ensures Inv(Replace(done, e, db.executions[e]).db, max) && Kept(db, Replace(done, e, db.executions[e]).db)
  {
    hide Core, Kept, Admissible, LineageInv, MirrorInv, MoveRepair;
    var x := db.executions[e];
    var y, c := Replacement(x, e), done.nextId;
    FinishedFacts(db, e, done, max);
    ReplacementFits(db, e, done, max);
    InsertKeepsCore(done, y, "", max);
    var inserted := InsertExecution(done, y, "");
    KeptTransitive(db, done, inserted);
    if x.kind.Repair? {
      OneAttemptAt(db.executions, db.repairs, e);
      InvLineage(db, max);
      FreshHasNoChild(db.executions, c, max);
      MoveKeepsMirror(db.executions, db.repairs, e, done.executions[e], c);
      MoveKeepsCore(db, e, inserted, c, max);
      KeptTransitive(db, inserted, inserted.(repairs := MoveRepair(db.repairs, e, c)));
    } else {
      FinishedMirror(db, e, done);
      OtherInsertKeepsMirror(done.executions, done.repairs, c, y);
    }
  }

  lemma InvLineage(db: Db, max: nat)
    requires Inv(db, max)
    ensures LineageInv(db.executions, max)
  {
    hide LineageInv, IdsInv, OutboxInv, PlanInv, AlertInv, MirrorInv;
  }

  /** A repair that ends without a plan fails its attempt. */
  lemma RepairFailureKeeps(db: Db, e: Id, done: Db, max: nat)
    requires Inv(db, max) && Finished(db, e, done) && db.executions[e].kind.Repair?
    ensures var failed := Unschedule(done.(repairs := SetRepairState(done.repairs, e, RepairFailed)), db.executions[e].monitor);
      Inv(failed, max) && Kept(db, failed)
  {
    hide Core, Kept;
    var ss := SetRepairState(done.repairs, e, RepairFailed);
    var failed := done.(repairs := ss);
    FinishedFacts(db, e, done, max);
    RepairColumnsKeepCore(done, ss, max);
    forall a | a in db.repairs && db.repairs[a].execution == e ensures Mirrors(ss[a], done.executions[e]) {
      assert TipLaw(db.executions, db.repairs, a);
    }
    TogetherKeepsMirror(db.executions, db.repairs, e, done.executions[e], ss);
    var last := Unschedule(failed, db.executions[e].monitor);
    MonitorColumnsKeepCore(failed, last.monitors, max);
    KeptTransitive(db, done, failed);
    KeptTransitive(db, failed, last);
  }

  /** The first stale failure of a generation creates its one repair. */
  lemma RepairRootKeeps(db: Db, e: Id, done: Db, max: nat)
    requires Inv(db, max) && 1 <= max && Finished(db, e, done)
    requires db.executions[e].kind.Check? && db.executions[e].generation.Some?
    requires !RepairExists(db.repairs, db.executions[e].monitor, db.executions[e].generation.value)
    ensures var repaired := InsertRepair(done, db.executions[e], db.executions[e].generation.value);
      Inv(repaired, max) && Kept(db, repaired)
  {
    hide LineageInv, OutboxInv, AlertInv, Kept;
    var x := db.executions[e];
    var m, g, c := x.monitor, x.generation.value, done.nextId;
    var y := NewExecution(m, x.revision, Repair, Some(g), NoInput, "");
    FinishedFacts(db, e, done, max);
    FinishedMirror(db, e, done);
    assert PinnedLaw(db.revisions, db.executions, e);
    UnrepairedIsNewest(db.monitors, db.revisions, db.executions, db.repairs, e);
    forall d | d in done.executions ensures !SameSlot(done.executions[d], y) {
      assert RegisteredLaw(done.executions, done.repairs, d);
    }
    RootKeepsCore(done, y, "", max);
    var inserted, repaired := InsertExecution(done, y, ""), InsertRepair(done, x, g);
    assert ExecutionIdLaw(done, c) && RowIdLaw(done, c) && RowIdLaw(done, c + 1);
    FreshHasNoChild(done.executions, c, max);
    RootKeepsMirror(done.executions, done.repairs, c, y, c + 1, repaired.repairs[c + 1]);
    AddAttemptKeepsCore(inserted, repaired, max);
    KeptTransitive(db, done, inserted);
    KeptTransitive(db, inserted, repaired);
  }

  lemma AddAttemptKeepsCore(db: Db, after: Db, max: nat)
    requires Core(db, max) && db.nextId !in db.repairs
    requires db.nextId in after.repairs && after.repairs[db.nextId].candidate.None?
    requires after == db.(nextId := db.nextId + 1, repairs := db.repairs[db.nextId := after.repairs[db.nextId]])
    ensures Core(after, max) && Kept(db, after)
  {
    forall k: Id ensures ExecutionIdLaw(after, k) {
      assert ExecutionIdLaw(db, k);
    }
    forall k: Id ensures RowIdLaw(after, k) {
      assert RowIdLaw(db, k);
    }
    RepairsKeepPlans(db.monitors, db.revisions, db.executions, db.repairs, after.repairs);
  }

  lemma FailureKeeps(db: Db, e: Id, done: Db, r: ExecutionResult, max: nat)
    requires Inv(db, max) && 1 <= max && Finished(db, e, done)
    ensures ApplyFailure(done, e, db.executions[e], r, max).Commit?
    ensures Inv(ApplyFailure(done, e, db.executions[e], r, max).db, max)
    ensures Kept(db, ApplyFailure(done, e, db.executions[e], r, max).db)
  {
    hide Core, MirrorInv, Kept;
    var x := db.executions[e];
    var m := x.monitor;
    var tx := ApplyFailure(done, e, x, r, max);
    if ShouldRetry(x, r, max) {
      ReplaceKeeps(db, e, done, max);
    } else if x.kind.Repair? {
      RepairFailureKeeps(db, e, done, max);
    } else {
      FinishedFacts(db, e, done, max);
      FinishedMirror(db, e, done);
      var base := done;
      if x.kind.Check? && x.generation.Some? && (r.classification.StaleAction? || r.classification.StaleExtractor?)
         && !RepairExists(db.repairs, m, x.generation.value) {
        RepairRootKeeps(db, e, done, max);
        base := InsertRepair(done, x, x.generation.value);
      }
      assert tx.Commit? && tx.db == base.(monitors := tx.db.monitors);
      MonitorColumnsKeepCore(base, tx.db.monitors, max);
      KeptTransitive(db, base, tx.db);
    }
  }

  lemma SweepOneKeeps(db: Db, e: Id, max: nat)
    requires Inv(db, max) && e in db.executions && db.executions[e].state.Running?
    ensures SweepOne(db, e, db.executions[e], max).Commit?
    ensures Inv(SweepOne(db, e, db.executions[e], max).db, max)
    ensures Kept(db, SweepOne(db, e, db.executions[e], max).db)
  {
    hide Core, Kept, MirrorInv;
    var x := db.executions[e];
    var done := Finish(db, e, Failed, x.startedAt);
    assert Finished(db, e, done);
    if x.attempt < max {
      ReplaceKeeps(db, e, done, max);
    } else if x.kind.Repair? {
      RepairFailureKeeps(db, e, done, max);
    } else {
      FinishedFacts(db, e, done, max);
      FinishedMirror(db, e, done);
      var last := Terminalize(done, e, x);
      MonitorColumnsKeepCore(done, last.monitors, max);
      KeptTransitive(db, done, last);
    }
  }

  /** One iteration leaves every other row of the batch as the SELECT saw it. */
  lemma SweepOneLocal(db: Db, e: Id, max: nat, d: Id)
    requires IdsInv(db) && e in db.executions && d in db.executions && d != e
    ensures var tx := SweepOne(db, e, db.executions[e], max);
      tx.Commit? ==> d in tx.db.executions && tx.db.executions[d] == db.executions[d]
  {
    assert ExecutionIdLaw(db, db.nextId);
  }

  lemma {:induction false} SweepBatchKeeps(db: Db, batch: seq<(Id, Execution)>, max: nat)
    requires Inv(db, max)
    requires forall i :: 0 <= i < |batch| ==>
      batch[i].0 in db.executions && db.executions[batch[i].0] == batch[i].1 && batch[i].1.state.Running?
    requires forall i, j :: 0 <= i < j < |batch| ==> batch[i].0 != batch[j].0
    ensures SweepBatch(db, batch, max).Commit?
    ensures Inv(SweepBatch(db, batch, max).db, max) && Kept(db, SweepBatch(db, batch, max).db)
    decreases |batch|
  {
    if batch != [] {
      SweepOneKeeps(db, batch[0].0, max);
      var one := SweepOne(db, batch[0].0, batch[0].1, max).db;
      forall i | 0 < i < |batch| ensures batch[i].0 in one.executions && one.executions[batch[i].0] == batch[i].1 {
        SweepOneLocal(db, batch[0].0, max, batch[i].0);
      }
      SweepBatchKeeps(one, batch[1..], max);
      KeptTransitive(db, one, SweepBatch(one, batch[1..], max).db);
    }
  }

  /** A sweep never aborts, whatever batch it selects. */
  lemma SweepKeeps(db: Db, batch: seq<Id>, seconds: int, now: int, max: nat)
    requires Inv(db, max)
    ensures Sweep(db, batch, seconds, max, now).Commit?
    ensures Inv(Sweep(db, batch, seconds, max, now).db, max) && Kept(db, Sweep(db, batch, seconds, max, now).db)
  {
    if Distinct(batch) && forall e :: e in batch ==> Stale(db, e, seconds, now) {
      var items := SelectedExecutions(db, batch);
      forall i | 0 <= i < |items|
        ensures items[i].0 in db.executions && db.executions[items[i].0] == items[i].1 && items[i].1.state.Running?
      {
        assert batch[i] in batch;
      }
      SweepBatchKeeps(db, items, max);
    }
  }

  // ---- Successful results ----

  /** A compile in flight finds its monitor without any plan. */
  lemma CompileProposes(db: Db, e: Id, done: Db, plan: Plan, max: nat)
    requires Inv(db, max) && Finished(db, e, done) && db.executions[e].kind.Compile? && done.executions[e].state.Succeeded?
    ensures MaxGeneration(done.revisions, db.executions[e].monitor) == 0
    ensures Proposal(done.monitors, done.revisions, done.executions, done.nextId,
                     Revision(db.executions[e].monitor, 1, plan, Compile, AwaitingReview))
  {
    var m := db.executions[e].monitor;
    FinishedFacts(db, e, done, max);
    assert FreshLaw(db.revisions, db.executions, e) && RowIdLaw(db, db.nextId) && CurrentLaw(db.monitors, db.revisions, m);
    NewestIsMax(db.revisions, m, 0);
    if db.monitors[m].current.Some? {
      var c := db.monitors[m].current.value;
      assert GenerationLaw(db.revisions, c);
      GenerationsContiguous(db.revisions, m, db.revisions[c].generation, 1);
    }
  }

  lemma RepairProposes(db: Db, e: Id, done: Db, plan: Plan, max: nat)
    requires Inv(db, max) && Finished(db, e, done) && db.executions[e].kind.Repair?
    ensures db.executions[e].generation.Some? && CasWins(done, db.executions[e])
    ensures MaxGeneration(done.revisions, db.executions[e].monitor) == db.executions[e].generation.value
    ensures Proposal(done.monitors, done.revisions, done.executions, done.nextId,
                     Revision(db.executions[e].monitor, db.executions[e].generation.value + 1, plan, Repair, Candidate))
  {
    FinishedFacts(db, e, done, max);
    RepairIsCurrent(db.monitors, db.revisions, db.executions, db.repairs, e);
    assert PinnedLaw(db.revisions, db.executions, e) && FreshLaw(db.revisions, db.executions, e) && RowIdLaw(db, db.nextId);
    assert GenerationLaw(db.revisions, db.executions[e].revision.value);
  }

  lemma ProposalKeepsCore(db: Db, row: Revision, ss: Repairs, max: nat)
    requires Core(db, max) && Proposal(db.monitors, db.revisions, db.executions, db.nextId, row)
    requires ss.Keys == db.repairs.Keys
    requires forall a :: a in ss ==>
      && ss[a].monitor == db.repairs[a].monitor && ss[a].failedGeneration == db.repairs[a].failedGeneration
      && (ss[a].candidate == db.repairs[a].candidate
          || (db.repairs[a].candidate.None? && ss[a].candidate == Some(db.nextId)
              && ss[a].monitor == row.monitor && ss[a].failedGeneration + 1 == row.generation))
    requires row.generation > 1 ==> Proposed(ss, row.monitor, row.generation - 1, db.nextId)
    ensures var after := db.(nextId := db.nextId + 1, revisions := db.revisions[db.nextId := row], repairs := ss);
      Core(after, max) && Kept(db, after)
  {
    var after := db.(nextId := db.nextId + 1, revisions := db.revisions[db.nextId := row], repairs := ss);
    forall k: Id ensures ExecutionIdLaw(after, k) {
      assert ExecutionIdLaw(db, k);
    }
    forall k: Id ensures RowIdLaw(after, k) {
      assert RowIdLaw(db, k);
    }
    ProposalKeepsPlans(db.monitors, db.revisions, db.executions, db.repairs, db.nextId, row, ss);
  }

  lemma CompileKeeps(db: Db, e: Id, done: Db, plan: Plan, autoPromote: bool, now: int, max: nat)
    requires Inv(db, max) && Finished(db, e, done) && db.executions[e].kind.Compile? && done.executions[e].state.Succeeded?
    ensures Inv(ApplyPlan(done, e, db.executions[e], plan, autoPromote, now), max)
    ensures Kept(db, ApplyPlan(done, e, db.executions[e], plan, autoPromote, now))
  {
    hide Core, Kept, MirrorInv, MaxGeneration;
    var x := db.executions[e];
    FinishedFacts(db, e, done, max);
    FinishedMirror(db, e, done);
    CompileProposes(db, e, done, plan, max);
    var row := Revision(x.monitor, 1, plan, Compile, AwaitingReview);
    ProposalKeepsCore(done, row, done.repairs, max);
    var inserted := done.(nextId := done.nextId + 1, revisions := done.revisions[done.nextId := row], repairs := done.repairs);
    var planned := ApplyPlan(done, e, x, plan, autoPromote, now);
    assert planned == SetStatus(inserted, x.monitor, AwaitingConfirmation);
    MonitorColumnsKeepCore(inserted, planned.monitors, max);
    KeptTransitive(db, done, inserted);
    KeptTransitive(db, inserted, planned);
  }

  /** Shared by both outcomes of a successful repair: the candidate is on record. */
  lemma CandidateKeeps(db: Db, e: Id, done: Db, plan: Plan, max: nat)
    requires Inv(db, max) && Finished(db, e, done) && db.executions[e].kind.Repair?
    ensures db.executions[e].generation.Some?
    ensures var x := db.executions[e];
      var row := Revision(x.monitor, x.generation.value + 1, plan, Repair, Candidate);
      var proposed := done.(nextId := done.nextId + 1, revisions := done.revisions[done.nextId := row],
                            repairs := SetRepairCandidate(done.repairs, e, done.nextId));
      Core(proposed, max) && Kept(db, proposed)
  {
    hide Core, Kept;
    var x, r := db.executions[e], done.nextId;
    RepairProposes(db, e, done, plan, max);
    FinishedFacts(db, e, done, max);
    var row := Revision(x.monitor, x.generation.value + 1, plan, Repair, Candidate);
    var ss := SetRepairCandidate(done.repairs, e, r);
    forall a | a in ss && ss[a] != db.repairs[a]
      ensures db.repairs[a].candidate.None? && ss[a].monitor == row.monitor && ss[a].failedGeneration + 1 == row.generation
    {
      assert TipLaw(db.executions, db.repairs, a);
    }
    assert AttachedLaw(db.executions, db.repairs, e);
    var a :| a in db.repairs && db.repairs[a].execution == e;
    assert TipLaw(db.executions, db.repairs, a);
    assert a in ss && ss[a].candidate == Some(r);
    ProposalKeepsCore(done, row, ss, max);
    KeptTransitive(db, done, done.(nextId := r + 1, revisions := done.revisions[r := row], repairs := ss));
  }

  /** A successful repair settles its attempt in the same transaction. */
  lemma RepairMirrorKept(db: Db, e: Id, done: Db, plan: Plan, autoPromote: bool, now: int, g: nat)
    requires MirrorInv(db.executions, db.repairs) && Finished(db, e, done) && db.executions[e].kind.Repair?
    requires done.executions[e].state.Succeeded?
    ensures MirrorInv(done.executions, ApplyPlanAt(done, e, db.executions[e], plan, autoPromote, now, g).repairs)
  {
    var ss := ApplyPlanAt(done, e, db.executions[e], plan, autoPromote, now, g).repairs;
    forall a | a in db.repairs && db.repairs[a].execution == e ensures Mirrors(ss[a], done.executions[e]) {
      assert TipLaw(db.executions, db.repairs, a);
    }
    TogetherKeepsMirror(db.executions, db.repairs, e, done.executions[e], ss);
  }

  /** Promotion is a judgement of the candidate that its own repair makes. */
  lemma PromotionKeepsCore(proposed: Db, e: Id, m: Id, r: Id, now: int, max: nat)
    requires Core(proposed, max) && m in proposed.monitors
    requires r in proposed.revisions && proposed.revisions[r].state.Candidate? && proposed.revisions[r].monitor == m
    ensures var current := SetValidation(SetCurrent(proposed, m, r, now), r, Activated);
      var promoted := current.(repairs := SetRepairState(current.repairs, e, RepairActivated));
      Core(promoted, max) && Kept(proposed, promoted)
  {
    var current := SetValidation(SetCurrent(proposed, m, r, now), r, Activated);
    JudgementKeepsCore(proposed, r, Activated, current.monitors, max);
    assert current == SetValidation(proposed, r, Activated).(monitors := current.monitors);
    var ss := SetRepairState(current.repairs, e, RepairActivated);
    RepairColumnsKeepCore(current, ss, max);
    KeptTransitive(proposed, current, current.(repairs := ss));
  }

  /** A successful repair is promoted, or waits for review. */
  lemma RepairKeeps(db: Db, e: Id, done: Db, plan: Plan, autoPromote: bool, now: int, max: nat)
    requires Inv(db, max) && Finished(db, e, done) && db.executions[e].kind.Repair? && done.executions[e].state.Succeeded?
    ensures Inv(ApplyPlan(done, e, db.executions[e], plan, autoPromote, now), max)
    ensures Kept(db, ApplyPlan(done, e, db.executions[e], plan, autoPromote, now))
  {
    hide Core, MirrorInv, Kept, MaxGeneration, ApplyPlanAt;
    var x := db.executions[e];
    RepairProposes(db, e, done, plan, max);
    RepairMirrorKept(db, e, done, plan, autoPromote, now, x.generation.value + 1);
    RepairCoreKept(db, e, done, plan, autoPromote, now, max);
    RepairSetsPlans(done, e, x, plan, autoPromote, now, x.generation.value + 1);
  }

  lemma RepairSetsPlans(done: Db, e: Id, x: Execution, plan: Plan, autoPromote: bool, now: int, g: nat)
    ensures ApplyPlanAt(done, e, x, plan, autoPromote, now, g).executions == done.executions
  {
    hide SetRepairCandidate, SetRepairState;
  }

  lemma RepairCoreKept(db: Db, e: Id, done: Db, plan: Plan, autoPromote: bool, now: int, max: nat)
    requires Inv(db, max) && Finished(db, e, done) && db.executions[e].kind.Repair? && db.executions[e].generation.Some?
    ensures var planned := ApplyPlanAt(done, e, db.executions[e], plan, autoPromote, now, db.executions[e].generation.value + 1);
      Core(planned, max) && Kept(db, planned)
  {
    hide Core, MirrorInv, Kept, MaxGeneration, SetRepairCandidate, SetRepairState;
    var x, r := db.executions[e], done.nextId;
    RepairProposes(db, e, done, plan, max);
    CandidateKeeps(db, e, done, plan, max);
    var g := x.generation.value + 1;
    var row := Revision(x.monitor, g, plan, Repair, Candidate);
    var proposed := done.(nextId := r + 1, revisions := done.revisions[r := row], repairs := SetRepairCandidate(done.repairs, e, r));
    var planned := ApplyPlanAt(done, e, x, plan, autoPromote, now, g);
    if autoPromote {
      PromotionKeepsCore(proposed, e, x.monitor, r, now, max);
    } else {
      MonitorColumnsKeepCore(proposed, planned.monitors, max);
    }
    KeptTransitive(db, proposed, planned);
  }

  /** A plan result touches neither executions, observations nor the alert condition. */
  lemma PlanLocal(done: Db, e: Id, x: Execution, plan: Plan, autoPromote: bool, now: int)
    ensures var planned := ApplyPlan(done, e, x, plan, autoPromote, now);
      && planned.executions == done.executions && planned.observations == done.observations
      && planned.monitors.Keys == done.monitors.Keys
  {
  }

  /** The tables after the observation and the latch, before any confirmation is enqueued. */
  ghost function LatchedDb(db: Db, e: Id, x: Execution, o: ResultObservation): Db
    requires x.monitor in db.monitors
  {
    var m, row, was := x.monitor, Observed(db, e, x.monitor, o), db.monitors[x.monitor].matched;
    var latch :=
      if !x.kind.Check? || !row.verified then was else if x.input.Confirmation? then row.matched else row.matched && was;
    db.(observations := db.observations + [row],
        monitors := db.monitors[m := db.monitors[m].(matched := latch)],
        alerts := db.alerts + if latch && !was then [Alert(m, |db.observations|)] else [])
  }

  /** A first match of an ordinary check. */
  predicate Triggers(db: Db, x: Execution, o: ResultObservation)
    requires x.monitor in db.monitors
  {
    x.kind.Check? && IsVerified(o) && !x.input.Confirmation? && MatchOf(db, x.monitor, o) && !db.monitors[x.monitor].matched
  }

  function ConfirmationOf(db: Db, x: Execution): Execution {
    NewExecution(x.monitor, x.revision, Check, x.generation, Confirmation(|db.observations|), "")
  }

  lemma ObservationIs(db: Db, e: Id, x: Execution, o: ResultObservation)
    requires x.monitor in db.monitors && !Busy(db.executions, x.monitor)
    ensures ApplyObservation(db, e, x, o) ==
      if Triggers(db, x, o) then InsertExecution(LatchedDb(db, e, x, o), ConfirmationOf(db, x), "") else LatchedDb(db, e, x, o)
  {
    var m := x.monitor;
    assert db.monitors[m := db.monitors[m].(matched := db.monitors[m].matched)] == db.monitors;
    assert db.alerts + [] == db.alerts;
  }

  lemma LatchedKeeps(db: Db, e: Id, x: Execution, o: ResultObservation, max: nat)
    requires Core(db, max)
    requires e in db.executions && db.executions[e].state.Succeeded? && Progressed(x, db.executions[e])
    requires x.monitor in db.monitors && !Busy(db.executions, x.monitor)
    requires forall i :: 0 <= i < |db.observations| ==> db.observations[i].execution != e
    ensures Core(LatchedDb(db, e, x, o), max) && Kept(db, LatchedDb(db, e, x, o))
  {
    hide Core, Kept, Busy, MatchOf;
    LatchKeepsCore(db, Observed(db, e, x.monitor, o), LatchedDb(db, e, x, o), max);
  }

  /** The confirmation of a first match fits into the latched tables. */
  lemma ConfirmationFits(db: Db, e: Id, x: Execution, o: ResultObservation, max: nat)
    requires Core(db, max) && x.monitor in db.monitors && Triggers(db, x, o)
    requires e in db.executions && db.executions[e].state.Succeeded? && Progressed(x, db.executions[e])
    requires !Busy(db.executions, x.monitor)
    ensures Admissible(LatchedDb(db, e, x, o), ConfirmationOf(db, x))
    ensures RootFits(LatchedDb(db, e, x, o).executions, ConfirmationOf(db, x))
  {
    hide LineageInv, OutboxInv, AlertInv;
    var latched := LatchedDb(db, e, x, o);
    assert PinnedLaw(db.revisions, db.executions, e);
    assert latched.observations[|db.observations|] == Observed(db, e, x.monitor, o);
  }

  lemma CoreIds(db: Db, e: Id, max: nat)
    requires Core(db, max)
    ensures db.nextId !in db.executions && (e in db.executions ==> db.executions[e].monitor in db.monitors)
  {
    hide LineageInv, OutboxInv, PlanInv, AlertInv;
    assert ExecutionIdLaw(db, e) && ExecutionIdLaw(db, db.nextId);
  }

  /** An observation of the finished execution keeps the invariant, with its alert or confirmation. */
  lemma ObservationKeeps(db: Db, e: Id, x: Execution, o: ResultObservation, max: nat)
    requires Inv(db, max) && 1 <= max
    requires e in db.executions && db.executions[e].state.Succeeded? && Progressed(x, db.executions[e])
    requires !Busy(db.executions, x.monitor)
    requires forall i :: 0 <= i < |db.observations| ==> db.observations[i].execution != e
    ensures Inv(ApplyObservation(db, e, x, o), max) && Kept(db, ApplyObservation(db, e, x, o))
  {
    hide Core, Kept, MirrorInv, Busy, Admissible, RootFits, Triggers, ApplyObservation;
    CoreIds(db, e, max);
    ObservationIs(db, e, x, o);
    LatchedKeeps(db, e, x, o, max);
    if Triggers(db, x, o) {
      var latched, y := LatchedDb(db, e, x, o), ConfirmationOf(db, x);
      ConfirmationFits(db, e, x, o, max);
      RootKeepsCore(latched, y, "", max);
      OtherInsertKeepsMirror(db.executions, db.repairs, db.nextId, y);
      KeptTransitive(db, latched, InsertExecution(latched, y, ""));
    }
  }

  lemma LatchKeepsCore(db: Db, row: Observation, latched: Db, max: nat)
    requires Core(db, max)
    requires row.execution in db.executions && db.executions[row.execution].state.Succeeded?
    requires db.executions[row.execution].monitor == row.monitor
    requires row.monitor in db.monitors && !Busy(db.executions, row.monitor)
    requires forall i :: 0 <= i < |db.observations| ==> db.observations[i].execution != row.execution
    requires row.monitor in latched.monitors
    requires var was, latch := db.monitors[row.monitor].matched, latched.monitors[row.monitor].matched;
      && Latched(db.executions, row, was, latch)
      && latched == db.(observations := db.observations + [row],
                        monitors := db.monitors[row.monitor := db.monitors[row.monitor].(matched := latch)],
                        alerts := db.alerts + if latch && !was then [Alert(row.monitor, |db.observations|)] else [])
    ensures Core(latched, max) && Kept(db, latched)
  {
    forall k: Id ensures ExecutionIdLaw(latched, k) {
      assert ExecutionIdLaw(db, k);
    }
    forall k: Id ensures RowIdLaw(latched, k) {
      assert RowIdLaw(db, k);
    }
    MonitorsKeepPlans(db.monitors, latched.monitors, db.revisions, db.executions, db.repairs);
    ObservationKeepsAlerts(db.monitors, latched.monitors, db.executions, db.observations, db.alerts, row);
  }

  lemma SuccessKeeps(db: Db, e: Id, done: Db, r: ExecutionResult, now: int, max: nat)
    requires Inv(db, max) && 1 <= max && Finished(db, e, done) && done.executions[e].state.Succeeded?
    requires ResultOk(db.executions[e], r) && r.status.StatusSucceeded?
    ensures Inv(ApplySuccess(done, e, db.executions[e], r, now), max)
    ensures Kept(db, ApplySuccess(done, e, db.executions[e], r, now))
  {
    var x := db.executions[e];
    FinishedFacts(db, e, done, max);
    var planned := done;
    if x.kind.Check? {
      FinishedMirror(db, e, done);
    } else {
      planned := ApplyPlan(done, e, x, r.plan.plan, r.autoPromote, now);
      PlanLocal(done, e, x, r.plan.plan, r.autoPromote, now);
      if x.kind.Compile? {
        CompileKeeps(db, e, done, r.plan.plan, r.autoPromote, now, max);
      } else {
        RepairKeeps(db, e, done, r.plan.plan, r.autoPromote, now, max);
      }
    }
    if r.observation.Some? {
      ObservationKeeps(planned, e, x, r.observation.value, max);
      KeptTransitive(db, planned, ApplyObservation(planned, e, x, r.observation.value));
    }
  }

  /** A result commits or leaves the database alone; it never fails half way. */
  lemma ResultKeeps(db: Db, e: Id, r: ExecutionResult, now: int, max: nat)
    requires Inv(db, max) && 1 <= max
    ensures ApplyResult(db, e, r, max, now).Commit? <==> e in db.executions && (!InFlight(db.executions[e].state) || ResultOk(db.executions[e], r))
    ensures Inv(After(db, ApplyResult(db, e, r, max, now)), max) && Kept(db, After(db, ApplyResult(db, e, r, max, now)))
  {
    if e in db.executions && InFlight(db.executions[e].state) && ResultOk(db.executions[e], r) {
      var x := db.executions[e];
      var done := Finish(db, e, StateOf(r.status), if x.startedAt.Some? then x.startedAt else Some(now));
      assert Finished(db, e, done);
      if r.status.StatusSucceeded? {
        SuccessKeeps(db, e, done, r, now, max);
      } else {
        FailureKeeps(db, e, done, r, max);
      }
    }
  }
}

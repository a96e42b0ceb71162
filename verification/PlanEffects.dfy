/** What an accepted plan does to the tables, in every reachable database. */
module PlanEffects {
  import opened Rows
  import opened Transactions
  import opened Lineage
  import opened Outbox
  import opened Plans
  import opened RepairMirror
  import opened ControlPlane
  import opened Results
  import opened Histories
  import opened ResultEffects

  /** One new revision, and no new work. */
  ghost predicate Proposes(db: Db, after: Db, e: Id, row: Revision) {
    && after.revisions == db.revisions[db.nextId := row] && db.nextId !in db.revisions
    && OnlyAdds(db, after, e, map[]) && after.outbox == db.outbox && after.alerts == db.alerts
  }

  /** The attempt at execution `e` records the candidate `r`. */
  ghost predicate RecordsCandidate(db: Db, after: Db, e: Id, r: Id, state: RepairState) {
    && after.repairs.Keys == db.repairs.Keys
    && (forall a :: a in db.repairs && db.repairs[a].execution == e ==> after.repairs[a] == db.repairs[a].(state := state, candidate := Some(r)))
    && (forall a :: a in db.repairs && db.repairs[a].execution != e ==> after.repairs[a] == db.repairs[a])
  }

  /** A successful compilation proposes generation 1 and awaits confirmation; nothing becomes current. */
  lemma CompileAwaitsConfirmation(history: seq<Action>, max: nat, e: Id, r: ExecutionResult, now: int)
    requires 1 <= max && AcceptsResult(Reach(history, max), AResult(e, r, now), e, max)
    requires r.status.StatusSucceeded? && Reach(history, max).executions[e].kind.Compile?
    ensures var db := Reach(history, max);
      var m, after := db.executions[e].monitor, Apply(db, AResult(e, r, now), max);
      && r.plan.ValidPlan? && Proposes(db, after, e, Revision(m, 1, r.plan.plan, Compile, AwaitingReview))
      && m in db.monitors && MonitorBecomes(db, after, m, db.monitors[m].(status := AwaitingConfirmation))
      && after.repairs == db.repairs
  {
    hide Inv, Attempted, ApplyPlanAt;
    Reached(history, max);
    var db := Reach(history, max);
    var done := CompileSucceeds(db, e, r, now, max);
    CompiledPlan(done, e, db.executions[e], r.plan.plan, r.autoPromote, now);
  }

  /** A successful repair without automatic promotion leaves its candidate to a review. */
  lemma RepairAwaitsReview(history: seq<Action>, max: nat, e: Id, r: ExecutionResult, now: int)
    requires 1 <= max && AcceptsResult(Reach(history, max), AResult(e, r, now), e, max)
    requires r.status.StatusSucceeded? && Reach(history, max).executions[e].kind.Repair? && !r.autoPromote
    ensures var db := Reach(history, max);
      var x, after := db.executions[e], Apply(db, AResult(e, r, now), max);
      && r.plan.ValidPlan? && x.generation.Some?
      && Proposes(db, after, e, Revision(x.monitor, x.generation.value + 1, r.plan.plan, Repair, Candidate))
      && x.monitor in db.monitors && MonitorBecomes(db, after, x.monitor, db.monitors[x.monitor].(status := UnderReview))
      && RecordsCandidate(db, after, e, db.nextId, RepairCandidate)
  {
    hide Inv, Attempted, ApplyPlanAt, CasWins;
    Reached(history, max);
    var db := Reach(history, max);
    var done := RepairSucceeds(db, e, r, now, max);
    ProposedPlan(done, e, db.executions[e], r.plan.plan, now, db.executions[e].generation.value + 1);
  }

  /** A successful repair with automatic promotion is active and current at once, and its monitor is back on schedule. */
  lemma RepairIsPromoted(history: seq<Action>, max: nat, e: Id, r: ExecutionResult, now: int)
    requires 1 <= max && AcceptsResult(Reach(history, max), AResult(e, r, now), e, max)
    requires r.status.StatusSucceeded? && Reach(history, max).executions[e].kind.Repair? && r.autoPromote
    ensures var db := Reach(history, max);
      var x, after := db.executions[e], Apply(db, AResult(e, r, now), max);
      && r.plan.ValidPlan? && x.generation.Some?
      && Proposes(db, after, e, Revision(x.monitor, x.generation.value + 1, r.plan.plan, Repair, Activated))
      && x.monitor in db.monitors
      && MonitorBecomes(db, after, x.monitor,
           db.monitors[x.monitor].(current := Some(db.nextId), status := Active, nextRunAt := Some(now + 60 * db.monitors[x.monitor].interval)))
      && RecordsCandidate(db, after, e, db.nextId, RepairActivated)
  {
    hide Inv, Attempted, ApplyPlanAt, CasWins;
    Reached(history, max);
    var db := Reach(history, max);
    var done := RepairSucceeds(db, e, r, now, max);
    PromotedPlan(done, e, db.executions[e], r.plan.plan, now, db.executions[e].generation.value + 1);
  }

  /** The tables after the first statement of a result, and what they share with those before it. */
  ghost predicate JustFinished(db: Db, e: Id, done: Db) {
    && e in db.executions && e in done.executions
    && done == db.(executions := db.executions[e := done.executions[e]])
    && db.nextId !in db.revisions && db.executions[e].monitor in db.monitors
  }

  /** Nothing but the observation separates the tables from the planned ones. */
  predicate UpToObservation(after: Db, planned: Db) {
    after == planned.(observations := after.observations)
  }

  lemma CompileSucceeds(db: Db, e: Id, r: ExecutionResult, now: int, max: nat) returns (done: Db)
    requires Inv(db, max) && AcceptsResult(db, AResult(e, r, now), e, max)
    requires r.status.StatusSucceeded? && db.executions[e].kind.Compile?
    ensures JustFinished(db, e, done) && r.plan.ValidPlan?
    ensures UpToObservation(Apply(db, AResult(e, r, now), max), ApplyPlanAt(done, e, db.executions[e], r.plan.plan, r.autoPromote, now, 1))
  {
    hide Inv, Core, Kept, ResultOk, ApplyObservation, MaxGeneration, ApplyPlanAt;
    var x := db.executions[e];
    done := Finish(db, e, Succeeded, if x.startedAt.Some? then x.startedAt else Some(now));
    assert Finished(db, e, done);
    PlanAccepted(x, r);
    CompileProposes(db, e, done, r.plan.plan, max);
    FreshRevision(db, e, max);
    DiagnosticOnly(ApplyPlan(done, e, x, r.plan.plan, r.autoPromote, now), e, x, r);
  }

  lemma RepairSucceeds(db: Db, e: Id, r: ExecutionResult, now: int, max: nat) returns (done: Db)
    requires Inv(db, max) && AcceptsResult(db, AResult(e, r, now), e, max)
    requires r.status.StatusSucceeded? && db.executions[e].kind.Repair?
    ensures JustFinished(db, e, done) && r.plan.ValidPlan? && db.executions[e].generation.Some? && CasWins(done, db.executions[e])
    ensures UpToObservation(Apply(db, AResult(e, r, now), max),
              ApplyPlanAt(done, e, db.executions[e], r.plan.plan, r.autoPromote, now, db.executions[e].generation.value + 1))
  {
    hide Inv, Core, Kept, ResultOk, ApplyObservation, MaxGeneration, ApplyPlanAt, CasWins;
    var x := db.executions[e];
    done := Finish(db, e, Succeeded, if x.startedAt.Some? then x.startedAt else Some(now));
    assert Finished(db, e, done);
    PlanAccepted(x, r);
    RepairProposes(db, e, done, r.plan.plan, max);
    FreshRevision(db, e, max);
    DiagnosticOnly(ApplyPlan(done, e, x, r.plan.plan, r.autoPromote, now), e, x, r);
  }

  lemma CompiledPlan(done: Db, e: Id, x: Execution, plan: Plan, autoPromote: bool, now: int)
    requires x.kind.Compile? && x.monitor in done.monitors
    ensures ApplyPlanAt(done, e, x, plan, autoPromote, now, 1) == done.(
              nextId := done.nextId + 1,
              revisions := done.revisions[done.nextId := Revision(x.monitor, 1, plan, Compile, AwaitingReview)],
              monitors := done.monitors[x.monitor := done.monitors[x.monitor].(status := AwaitingConfirmation)])
  {
  }

  lemma ProposedPlan(done: Db, e: Id, x: Execution, plan: Plan, now: int, g: nat)
    requires x.kind.Repair? && x.monitor in done.monitors
    ensures var planned := ApplyPlanAt(done, e, x, plan, false, now, g);
      && planned == done.(
           nextId := done.nextId + 1,
           revisions := done.revisions[done.nextId := Revision(x.monitor, g, plan, Repair, Candidate)],
           repairs := planned.repairs,
           monitors := done.monitors[x.monitor := done.monitors[x.monitor].(status := UnderReview)])
      && RecordsCandidate(done, planned, e, done.nextId, RepairCandidate)
  {
  }

  lemma PromotedPlan(done: Db, e: Id, x: Execution, plan: Plan, now: int, g: nat)
    requires x.kind.Repair? && x.monitor in done.monitors && CasWins(done, x)
    ensures var planned, row := ApplyPlanAt(done, e, x, plan, true, now, g), done.monitors[x.monitor];
      && planned == done.(
           nextId := done.nextId + 1,
           revisions := done.revisions[done.nextId := Revision(x.monitor, g, plan, Repair, Activated)],
           repairs := planned.repairs,
           monitors := done.monitors[x.monitor := row.(current := Some(done.nextId), status := Active, nextRunAt := Some(now + 60 * row.interval))])
      && RecordsCandidate(done, planned, e, done.nextId, RepairActivated)
  {
    var r := done.nextId;
    var row := Revision(x.monitor, g, plan, Repair, Candidate);
    assert done.revisions[r := row][r := row.(state := Activated)] == done.revisions[r := row.(state := Activated)];
  }

  lemma PlanAccepted(x: Execution, r: ExecutionResult)
    requires ResultOk(x, r) && r.status.StatusSucceeded? && !x.kind.Check?
    ensures r.plan.ValidPlan?
  {
  }

  lemma FreshRevision(db: Db, e: Id, max: nat)
    requires Inv(db, max) && e in db.executions
    ensures db.nextId !in db.revisions && db.executions[e].monitor in db.monitors
  {
    hide LineageInv, OutboxInv, PlanInv, MirrorInv;
    assert RowIdLaw(db, db.nextId) && ExecutionIdLaw(db, e);
  }

  /** The observation of a compilation or repair is only recorded. */
  lemma DiagnosticOnly(db: Db, e: Id, x: Execution, r: ExecutionResult)
    requires !x.kind.Check?
    ensures r.observation.Some? ==>
      var after := ApplyObservation(db, e, x, r.observation.value);
      after == db.(observations := after.observations)
  {
    hide Observed;
  }
}

/**
 What a worker's result does to the tables, row by row, in every reachable
 database. `c` below is always the next fresh id.
 */
module ResultEffects {
  import opened Rows
  import opened Transactions
  import opened Lineage
  import opened Outbox
  import opened RepairMirror
  import opened Plans
  import opened AlertEdges
  import opened ControlPlane
  import opened Results
  import opened Histories

  /** Every other execution keeps its row, and exactly `added` is new. */
  ghost predicate OnlyAdds(db: Db, after: Db, e: Id, added: map<Id, Execution>) {
    && after.executions.Keys == db.executions.Keys + added.Keys
    && (forall d :: d in added ==> after.executions[d] == added[d])
    && (forall d :: d in db.executions && d != e ==> after.executions[d] == db.executions[d])
  }

  /** Every other monitor keeps its row, and monitor `m` is as said. */
  ghost predicate MonitorBecomes(db: Db, after: Db, m: Id, row: Monitor) {
    m in db.monitors && after.monitors == db.monitors[m := row]
  }

  // ---- Acceptance ----

  predicate Titled(o: ResultObservation) {
    exists i :: 0 <= i < |o.title| && o.title[i] != ' ' && o.title[i] != '\t' && o.title[i] != '\n' && o.title[i] != '\r'
  }

  /** Exactly which results are accepted. */
  lemma AcceptedIff(history: seq<Action>, max: nat, e: Id, r: ExecutionResult, now: int)
    requires 1 <= max && e in Reach(history, max).executions && InFlight(Reach(history, max).executions[e].state)
    ensures var x, o := Reach(history, max).executions[e], r.observation;
      AcceptsResult(Reach(history, max), AResult(e, r, now), e, max) <==>
        && !r.plan.InvalidJson? && r.artifactsValid
        && match r.status
           case OtherStatus => false
           case StatusSucceeded =>
             && (if x.kind.Check? then o.Some? else r.plan.ValidPlan?)
             && (o.Some? ==> o.value.priceMinor > 0 && |o.value.currency| == 3 && !o.value.verification.OtherVerification? && Titled(o.value))
           case _ => r.error != "" || !r.classification.NoClassification?
  {
    hide ApplySuccess, ApplyFailure;
    Reached(history, max);
    var db := Reach(history, max);
    var x := db.executions[e];
    var done := Finish(db, e, StateOf(r.status), if x.startedAt.Some? then x.startedAt else Some(now));
    if ResultOk(x, r) && !r.status.StatusSucceeded? {
      assert Finished(db, e, done);
      FailureKeeps(db, e, done, r, max);
    }
  }

  /** The execution ends in the posted status and keeps everything else. */
  lemma ResultEnds(history: seq<Action>, max: nat, e: Id, r: ExecutionResult, now: int)
    requires 1 <= max && AcceptsResult(Reach(history, max), AResult(e, r, now), e, max)
    ensures var db := Reach(history, max);
      var x, after := db.executions[e], Apply(db, AResult(e, r, now), max);
      && e in after.executions
      && after.executions[e] == x.(state := after.executions[e].state, startedAt := if x.startedAt.Some? then x.startedAt else Some(now))
      && match r.status
         case StatusSucceeded => after.executions[e].state.Succeeded?
         case StatusBlocked => after.executions[e].state.Blocked?
         case StatusNeedsReview => after.executions[e].state.NeedsReview?
         case _ => after.executions[e].state.Failed?
  {
    hide ApplySuccess, ApplyFailure, ResultOk;
    Reached(history, max);
    var db := Reach(history, max);
    var x := db.executions[e];
    var done := Finish(db, e, StateOf(r.status), if x.startedAt.Some? then x.startedAt else Some(now));
    assert ExecutionIdLaw(db, e);
    if r.status.StatusSucceeded? {
      SuccessLocal(done, e, x, r, now, e);
    } else {
      FailureLocal(done, e, x, r, max, e);
    }
  }

  // ---- Failures ----

  predicate Transient(c: Classification) {
    c.TransientInfrastructure? || c.RateLimited?
  }

  predicate StalePlan(c: Classification) {
    c.StaleAction? || c.StaleExtractor?
  }

  /** A transient or rate-limited compile or repair below the bound is queued again, as a child of the failed one. */
  lemma TransientRetries(history: seq<Action>, max: nat, e: Id, r: ExecutionResult, now: int)
    requires 1 <= max && AcceptsResult(Reach(history, max), AResult(e, r, now), e, max)
    requires r.status.StatusFailed? && Transient(r.classification)
    requires !Reach(history, max).executions[e].kind.Check? && Reach(history, max).executions[e].attempt < max
    ensures var db := Reach(history, max);
      var x, c, after := db.executions[e], db.nextId, Apply(db, AResult(e, r, now), max);
      && OnlyAdds(db, after, e, map[c := Execution(x.monitor, x.revision, x.kind, x.generation, x.attempt + 1, Some(e), Queued, x.input, "", None)])
      && after.outbox == db.outbox + [OutboxRow(x.kind, c, x.monitor, x.revision, "", false)]
      && after.monitors == db.monitors && after.revisions == db.revisions
      && after.observations == db.observations && after.alerts == db.alerts
      && after.repairs.Keys == db.repairs.Keys
      && (forall a :: a in db.repairs && db.repairs[a].execution == e ==>
            after.repairs[a] == db.repairs[a].(execution := c, state := RepairQueued, candidate := None))
      && (forall a :: a in db.repairs && db.repairs[a].execution != e ==> after.repairs[a] == db.repairs[a])
  {
    hide Inv, ResultOk, Replace, MoveRepair;
    Reached(history, max);
    var db := Reach(history, max);
    var x := db.executions[e];
    InvIds(db, max);
    assert ExecutionIdLaw(db, db.nextId);
    AttemptsAreRepairs(db, e, max);
    ReplaceIs(Finish(db, e, Failed, if x.startedAt.Some? then x.startedAt else Some(now)), e, x);
  }

  lemma AttemptsAreRepairs(db: Db, e: Id, max: nat)
    requires Inv(db, max) && e in db.executions
    ensures !db.executions[e].kind.Repair? ==> forall a :: a in db.repairs ==> db.repairs[a].execution != e
  {
    hide LineageInv, OutboxInv, PlanInv, AlertInv;
    forall a | a in db.repairs ensures !db.executions[e].kind.Repair? ==> db.repairs[a].execution != e {
      assert TipLaw(db.executions, db.repairs, a);
    }
  }

  lemma ReplaceIs(db: Db, e: Id, x: Execution)
    requires Replace(db, e, x).Commit?
    ensures var c, after := db.nextId, Replace(db, e, x).db;
      && after.executions == db.executions[c := Execution(x.monitor, x.revision, x.kind, x.generation, x.attempt + 1, Some(e), Queued, x.input, "", None)]
      && after.outbox == db.outbox + [OutboxRow(x.kind, c, x.monitor, x.revision, "", false)]
      && after.monitors == db.monitors && after.revisions == db.revisions
      && after.observations == db.observations && after.alerts == db.alerts
      && after.repairs.Keys == db.repairs.Keys
      && (x.kind.Repair? ==> forall a :: a in db.repairs && db.repairs[a].execution == e ==>
            after.repairs[a] == db.repairs[a].(execution := c, state := RepairQueued, candidate := None))
      && (forall a :: a in db.repairs && db.repairs[a].execution != e ==> after.repairs[a] == db.repairs[a])
  {
  }

  lemma InvIds(db: Db, max: nat)
    requires Inv(db, max)
    ensures IdsInv(db)
  {
  }

  /** A compilation that fails for good stops its monitor, or puts it under review. */
  lemma CompileFails(history: seq<Action>, max: nat, e: Id, r: ExecutionResult, now: int)
    requires 1 <= max && AcceptsResult(Reach(history, max), AResult(e, r, now), e, max)
    requires Reach(history, max).executions[e].kind.Compile? && !r.status.StatusSucceeded?
    requires !(r.status.StatusFailed? && Transient(r.classification) && Reach(history, max).executions[e].attempt < max)
    ensures var db := Reach(history, max);
      var m, after := db.executions[e].monitor, Apply(db, AResult(e, r, now), max);
      && m in db.monitors
      && MonitorBecomes(db, after, m, db.monitors[m].(status := if r.status.StatusNeedsReview? then UnderReview else Stopped))
      && OnlyAdds(db, after, e, map[]) && after.repairs == db.repairs && SameElsewhere(db, after)
  {
    hide Inv, ResultOk;
    Reached(history, max);
    InvIds(Reach(history, max), max);
    assert ExecutionIdLaw(Reach(history, max), e);
  }

  /** Nothing but executions, monitors and repair attempts changed. */
  predicate SameElsewhere(db: Db, after: Db) {
    after.outbox == db.outbox && after.revisions == db.revisions && after.observations == db.observations && after.alerts == db.alerts
  }

  /** A repair that fails for good fails its attempt and takes its monitor off the schedule. */
  lemma RepairFails(history: seq<Action>, max: nat, e: Id, r: ExecutionResult, now: int)
    requires 1 <= max && AcceptsResult(Reach(history, max), AResult(e, r, now), e, max)
    requires Reach(history, max).executions[e].kind.Repair? && !r.status.StatusSucceeded?
    requires !(r.status.StatusFailed? && Transient(r.classification) && Reach(history, max).executions[e].attempt < max)
    ensures var db := Reach(history, max);
      var m, after := db.executions[e].monitor, Apply(db, AResult(e, r, now), max);
      && m in db.monitors
      && MonitorBecomes(db, after, m, db.monitors[m].(status := UnderReview, nextRunAt := None))
      && OnlyAdds(db, after, e, map[]) && SameElsewhere(db, after)
      && after.repairs.Keys == db.repairs.Keys
      && (forall a :: a in db.repairs && db.repairs[a].execution == e ==> after.repairs[a] == db.repairs[a].(state := RepairFailed))
      && (forall a :: a in db.repairs && db.repairs[a].execution != e ==> after.repairs[a] == db.repairs[a])
  {
    hide Inv, ResultOk;
    Reached(history, max);
    InvIds(Reach(history, max), max);
    assert ExecutionIdLaw(Reach(history, max), e);
  }

  /** The first stale failure of a generation queues its repair and takes the monitor off the schedule. */
  lemma StaleFailureRepairs(history: seq<Action>, max: nat, e: Id, r: ExecutionResult, now: int, g: nat)
    requires 1 <= max && AcceptsResult(Reach(history, max), AResult(e, r, now), e, max)
    requires Reach(history, max).executions[e].kind.Check? && !r.status.StatusSucceeded? && StalePlan(r.classification)
    requires Reach(history, max).executions[e].generation == Some(g)
    requires forall a :: a in Reach(history, max).repairs && Reach(history, max).repairs[a].monitor == Reach(history, max).executions[e].monitor
               ==> Reach(history, max).repairs[a].failedGeneration != g
    ensures var db := Reach(history, max);
      var x, c, after := db.executions[e], db.nextId, Apply(db, AResult(e, r, now), max);
      && OnlyAdds(db, after, e, map[c := Execution(x.monitor, x.revision, Repair, Some(g), 1, None, Queued, NoInput, "", None)])
      && c + 1 !in db.repairs && after.repairs == db.repairs[c + 1 := RepairAttempt(x.monitor, g, c, None, RepairQueued)]
      && (forall a :: a in after.repairs && after.repairs[a].execution == c ==> a == c + 1)
      && after.outbox == db.outbox + [OutboxRow(Repair, c, x.monitor, x.revision, "", false)]
      && x.monitor in db.monitors
      && MonitorBecomes(db, after, x.monitor, db.monitors[x.monitor].(status := UnderReview, nextRunAt := None))
      && after.revisions == db.revisions && after.observations == db.observations && after.alerts == db.alerts
  {
    hide Inv, Attempted, Apply, InsertRepair, Unschedule;
    Reached(history, max);
    var db := Reach(history, max);
    var x := db.executions[e];
    FreshIds(db, e, max);
    StaleFailureIs(db, e, r, now, max, g);
    RepairOpened(Finish(db, e, StateOf(r.status), if x.startedAt.Some? then x.startedAt else Some(now)), x, g);
  }

  lemma StaleFailureIs(db: Db, e: Id, r: ExecutionResult, now: int, max: nat, g: nat)
    requires AcceptsResult(db, AResult(e, r, now), e, max)
    requires db.executions[e].kind.Check? && !r.status.StatusSucceeded? && StalePlan(r.classification) && db.executions[e].generation == Some(g)
    requires forall a :: a in db.repairs && db.repairs[a].monitor == db.executions[e].monitor ==> db.repairs[a].failedGeneration != g
    ensures var x := db.executions[e];
      var done := Finish(db, e, StateOf(r.status), if x.startedAt.Some? then x.startedAt else Some(now));
      Apply(db, AResult(e, r, now), max) == Unschedule(InsertRepair(done, x, g), x.monitor)
  {
    hide ResultOk, InsertRepair, Unschedule;
  }

  lemma FreshIds(db: Db, e: Id, max: nat)
    requires Inv(db, max) && e in db.executions
    ensures db.nextId !in db.executions && db.nextId + 1 !in db.repairs && db.executions[e].monitor in db.monitors
    ensures forall a :: a in db.repairs ==> db.repairs[a].execution != db.nextId
  {
    hide LineageInv, OutboxInv, PlanInv, AlertInv;
    assert ExecutionIdLaw(db, e) && ExecutionIdLaw(db, db.nextId) && RowIdLaw(db, db.nextId + 1);
    forall a | a in db.repairs ensures db.repairs[a].execution != db.nextId {
      assert TipLaw(db.executions, db.repairs, a);
    }
  }

  lemma RepairOpened(db: Db, x: Execution, g: nat)
    requires x.monitor in db.monitors
    ensures var c := db.nextId;
      Unschedule(InsertRepair(db, x, g), x.monitor) == db.(
        nextId := c + 2,
        executions := db.executions[c := Execution(x.monitor, x.revision, Repair, Some(g), 1, None, Queued, NoInput, "", None)],
        repairs := db.repairs[c + 1 := RepairAttempt(x.monitor, g, c, None, RepairQueued)],
        outbox := db.outbox + [OutboxRow(Repair, c, x.monitor, x.revision, "", false)],
        monitors := db.monitors[x.monitor := db.monitors[x.monitor].(status := UnderReview, nextRunAt := None)])
  {
  }

  /** A stale failure of a generation that already has its attempt changes nothing but the check itself. */
  lemma RepairedOnce(history: seq<Action>, max: nat, e: Id, r: ExecutionResult, now: int, a: Id)
    requires 1 <= max && AcceptsResult(Reach(history, max), AResult(e, r, now), e, max)
    requires Reach(history, max).executions[e].kind.Check? && !r.status.StatusSucceeded? && StalePlan(r.classification)
    requires a in Reach(history, max).repairs && Reach(history, max).repairs[a].monitor == Reach(history, max).executions[e].monitor
    requires Reach(history, max).executions[e].generation == Some(Reach(history, max).repairs[a].failedGeneration)
    ensures var db, after := Reach(history, max), Apply(Reach(history, max), AResult(e, r, now), max);
      OnlyAdds(db, after, e, map[]) && after.monitors == db.monitors && after.repairs == db.repairs && SameElsewhere(db, after)
  {
    hide Inv, ResultOk;
    assert RepairExists(Reach(history, max).repairs, Reach(history, max).executions[e].monitor, Reach(history, max).executions[e].generation.value);
  }

  /** Every other failed check: a block stops the monitor, doubt puts it under review off the schedule, the rest is left to the next run. */
  lemma CheckFails(history: seq<Action>, max: nat, e: Id, r: ExecutionResult, now: int)
    requires 1 <= max && AcceptsResult(Reach(history, max), AResult(e, r, now), e, max)
    requires Reach(history, max).executions[e].kind.Check? && !r.status.StatusSucceeded? && !StalePlan(r.classification)
    ensures var db := Reach(history, max);
      var m, after := db.executions[e].monitor, Apply(db, AResult(e, r, now), max);
      && m in db.monitors
      && MonitorBecomes(db, after, m,
           if r.status.StatusBlocked? || r.classification.BlockedClass? then db.monitors[m].(status := Stopped)
           else if r.status.StatusNeedsReview? || r.classification.AmbiguousValue? || r.classification.IdentityDrift?
           then db.monitors[m].(status := UnderReview, nextRunAt := None)
           else db.monitors[m])
      && OnlyAdds(db, after, e, map[]) && after.repairs == db.repairs && SameElsewhere(db, after)
  {
    hide Inv, ResultOk;
    Reached(history, max);
    var db := Reach(history, max);
    InvIds(db, max);
    assert ExecutionIdLaw(db, e);
    assert db.monitors == db.monitors[db.executions[e].monitor := db.monitors[db.executions[e].monitor]];
  }
}

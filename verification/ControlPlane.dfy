/** The invariant of the control plane and its preservation by every transaction. */
module ControlPlane {
  import opened Rows
  import opened Transactions
  import opened Lineage
  import opened Outbox
  import opened RepairMirror
  import opened Plans
  import opened AlertEdges

  predicate ExecutionIdLaw(db: Db, e: Id) {
    e in db.executions ==> e < db.nextId && db.executions[e].monitor in db.monitors
  }

  predicate RowIdLaw(db: Db, k: Id) {
    k in db.monitors || k in db.revisions || k in db.repairs ==> k < db.nextId
  }

  ghost predicate IdsInv(db: Db) {
    && (forall e :: ExecutionIdLaw(db, e))
    && (forall k :: RowIdLaw(db, k))
  }

  /** Everything except the mirror, which a transaction breaks between its statements. */
  ghost predicate Core(db: Db, max: nat) {
    && IdsInv(db)
    && LineageInv(db.executions, max)
    && OutboxInv(db.executions, db.outbox)
    && PlanInv(db.monitors, db.revisions, db.executions, db.repairs)
    && AlertInv(db.monitors, db.executions, db.observations, db.alerts)
  }

  ghost predicate Inv(db: Db, max: nat) {
    Core(db, max) && MirrorInv(db.executions, db.repairs)
  }

  // ---- What no transaction undoes ----

  predicate KeptRevision(vs: Revisions, ws: Revisions, r: Id) {
    r in vs ==> r in ws && ws[r] == vs[r].(state := ws[r].state) && (vs[r].state.Activated? ==> ws[r].state.Activated?)
  }

  ghost predicate RevisionsKept(vs: Revisions, ws: Revisions) {
    forall r :: KeptRevision(vs, ws, r)
  }

  predicate KeptOutboxRow(rows: seq<OutboxRow>, more: seq<OutboxRow>, i: nat) {
    i < |rows| ==> i < |more| && more[i] == rows[i].(published := more[i].published) && (rows[i].published ==> more[i].published)
  }

  ghost predicate Kept(db: Db, after: Db) {
    && Extends(db.executions, after.executions)
    && RevisionsKept(db.revisions, after.revisions)
    && db.monitors.Keys <= after.monitors.Keys
    && db.observations <= after.observations
    && db.alerts <= after.alerts
    && (forall i :: KeptOutboxRow(db.outbox, after.outbox, i))
  }

  lemma KeptTransitive(a: Db, b: Db, c: Db)
    requires Kept(a, b) && Kept(b, c)
    ensures Kept(a, c)
  {
    ExtendsTransitive(a.executions, b.executions, c.executions);
    forall r: Id ensures KeptRevision(a.revisions, c.revisions, r) {
      assert KeptRevision(a.revisions, b.revisions, r) && KeptRevision(b.revisions, c.revisions, r);
    }
    forall i: nat ensures KeptOutboxRow(a.outbox, c.outbox, i) {
      assert KeptOutboxRow(a.outbox, b.outbox, i) && KeptOutboxRow(b.outbox, c.outbox, i);
    }
  }

  lemma KeptReflexive(db: Db)
    ensures Kept(db, db)
  {
  }

  // ---- Statements ----

  /** Status and schedule columns do not matter to the invariant. */
  lemma MonitorColumnsKeepCore(db: Db, ms: Monitors, max: nat)
    requires Core(db, max)
    requires ms.Keys == db.monitors.Keys
    requires forall m :: m in ms ==> ms[m].current == db.monitors[m].current && ms[m].matched == db.monitors[m].matched
    ensures Core(db.(monitors := ms), max) && Kept(db, db.(monitors := ms))
  {
    var after := db.(monitors := ms);
    forall e: Id ensures ExecutionIdLaw(after, e) {
      assert ExecutionIdLaw(db, e);
    }
    forall k: Id ensures RowIdLaw(after, k) {
      assert RowIdLaw(db, k);
    }
    MonitorsKeepPlans(db.monitors, ms, db.revisions, db.executions, db.repairs);
    MonitorsKeepAlerts(db.monitors, ms, db.executions, db.observations, db.alerts);
  }

  lemma ProgressKeepsCore(db: Db, e: Id, state: ExecutionState, startedAt: Option<int>, max: nat)
    requires Core(db, max) && e in db.executions && InFlight(db.executions[e].state)
    ensures Core(Finish(db, e, state, startedAt), max) && Kept(db, Finish(db, e, state, startedAt))
  {
    var after := Finish(db, e, state, startedAt);
    var y := after.executions[e];
    forall d: Id ensures ExecutionIdLaw(after, d) {
      assert ExecutionIdLaw(db, d);
    }
    forall k: Id ensures RowIdLaw(after, k) {
      assert RowIdLaw(db, k);
    }
    ProgressKeepsLineage(db.executions, e, y, max);
    ProgressKeepsOutbox(db.executions, e, y, db.outbox);
    ExecutionsKeepPlans(db.monitors, db.revisions, db.executions, db.repairs, after.executions);
    ExecutionsKeepAlerts(db.monitors, db.executions, after.executions, db.observations, db.alerts);
  }

  /** What a new execution must satisfy apart from its place in the lineage. */
  ghost predicate Admissible(db: Db, x: Execution) {
    && x.monitor in db.monitors
    && Pinned(db.revisions, x) && Fresh(db.revisions, x)
    && Triggered(db.executions, db.observations, x)
    && (x.input.Confirmation? ==> !db.monitors[x.monitor].matched)
  }

  lemma InsertKeepsCore(db: Db, x: Execution, traceparent: string, max: nat)
    requires Core(db, max) && Admissible(db, x)
    requires LineageInv(db.executions[db.nextId := x], max)
    ensures Core(InsertExecution(db, x, traceparent), max) && Kept(db, InsertExecution(db, x, traceparent))
  {
    var e, after := db.nextId, InsertExecution(db, x, traceparent);
    assert ExecutionIdLaw(db, e);
    forall d: Id ensures ExecutionIdLaw(after, d) {
      assert ExecutionIdLaw(db, d);
    }
    forall k: Id ensures RowIdLaw(after, k) {
      assert RowIdLaw(db, k);
    }
    forall d: Id ensures KeptRow(db.executions, after.executions, d) {
    }
    InsertKeepsOutbox(db.executions, e, x, db.outbox, after.outbox[|db.outbox|]);
    ExecutionsKeepPlans(db.monitors, db.revisions, db.executions, db.repairs, after.executions);
    ExecutionsKeepAlerts(db.monitors, db.executions, after.executions, db.observations, db.alerts);
  }

  lemma RootKeepsCore(db: Db, x: Execution, traceparent: string, max: nat)
    requires Core(db, max) && 1 <= max && Admissible(db, x) && RootFits(db.executions, x)
    ensures Core(InsertExecution(db, x, traceparent), max) && Kept(db, InsertExecution(db, x, traceparent))
  {
    assert ExecutionIdLaw(db, db.nextId);
    RootKeepsLineage(db.executions, db.nextId, x, max);
    InsertKeepsCore(db, x, traceparent, max);
  }

  lemma RepairColumnsKeepCore(db: Db, ss: Repairs, max: nat)
    requires Core(db, max)
    requires ss.Keys == db.repairs.Keys
    requires forall a :: a in ss ==>
      && ss[a].monitor == db.repairs[a].monitor && ss[a].failedGeneration == db.repairs[a].failedGeneration
      && ss[a].candidate == db.repairs[a].candidate
    ensures Core(db.(repairs := ss), max) && Kept(db, db.(repairs := ss))
  {
    var after := db.(repairs := ss);
    forall e: Id ensures ExecutionIdLaw(after, e) {
      assert ExecutionIdLaw(db, e);
    }
    forall k: Id ensures RowIdLaw(after, k) {
      assert RowIdLaw(db, k);
    }
    RepairsKeepPlans(db.monitors, db.revisions, db.executions, db.repairs, ss);
  }

  // ---- Transactions without results ----

  lemma CreateKeeps(db: Db, interval: int, url: string, intent: string, traceparent: string, max: nat)
    requires Inv(db, max) && 1 <= max
    ensures Inv(After(db, CreateMonitor(db, interval, url, intent, traceparent)), max)
    ensures Kept(db, After(db, CreateMonitor(db, interval, url, intent, traceparent)))
  {
    hide Core, MirrorInv, Kept;
    if interval >= 1 {
      var m := db.nextId;
      var ms := db.monitors[m := Monitor(interval, EMPTY_CONDITION, Compiling, None, false, None)];
      var created := db.(nextId := m + 1, monitors := ms);
      NewMonitorKeepsCore(db, ms, max);
      var x := NewExecution(m, None, Compile, None, CompileInput(url, intent), "");
      NothingOf(db, m, max);
      RootKeepsCore(created, x, traceparent, max);
      OtherInsertKeepsMirror(db.executions, db.repairs, m + 1, x);
      KeptTransitive(db, created, InsertExecution(created, x, traceparent));
    } else {
      KeptReflexive(db);
    }
  }

  /** Nothing refers to an id that has not been handed out. */
  lemma NothingOf(db: Db, m: Id, max: nat)
    requires Core(db, max) && m >= db.nextId
    ensures !Busy(db.executions, m) && !HasGeneration(db.revisions, m, 1)
    ensures forall e :: e in db.executions ==> e < db.nextId && db.executions[e].monitor != m
    ensures forall i :: 0 <= i < |db.observations| ==> db.observations[i].monitor != m
  {
    assert RowIdLaw(db, m);
    forall e | e in db.executions ensures e < db.nextId && db.executions[e].monitor != m {
      assert ExecutionIdLaw(db, e);
    }
    forall r | r in db.revisions ensures db.revisions[r].monitor != m {
      assert NewestLaw(db.monitors, db.revisions, r);
    }
    forall i | 0 <= i < |db.observations| ensures db.observations[i].monitor != m {
      assert SourceLaw(db.executions, db.observations, i);
    }
  }

  lemma NewMonitorKeepsCore(db: Db, ms: Monitors, max: nat)
    requires Core(db, max)
    requires db.nextId in ms && ms == db.monitors[db.nextId := ms[db.nextId]] && ms[db.nextId].current.None? && !ms[db.nextId].matched
    ensures Core(db.(nextId := db.nextId + 1, monitors := ms), max)
    ensures Kept(db, db.(nextId := db.nextId + 1, monitors := ms))
  {
    var after := db.(nextId := db.nextId + 1, monitors := ms);
    NothingOf(db, db.nextId, max);
    assert RowIdLaw(db, db.nextId);
    forall e: Id ensures ExecutionIdLaw(after, e) {
      assert ExecutionIdLaw(db, e);
    }
    forall k: Id ensures RowIdLaw(after, k) {
      assert RowIdLaw(db, k);
    }
    MonitorsKeepPlans(db.monitors, ms, db.revisions, db.executions, db.repairs);
    MonitorsKeepAlerts(db.monitors, ms, db.executions, db.observations, db.alerts);
  }

  lemma StartKeepsColumns(rs: Repairs, e: Id)
    ensures StartRepair(rs, e).Keys == rs.Keys
    ensures forall a :: a in rs ==> StartRepair(rs, e)[a] == rs[a].(state := StartRepair(rs, e)[a].state)
  {
  }

  /** A queued repair and its attempt start together. */
  lemma StartKeepsMirror(db: Db, e: Id, y: Execution)
    requires MirrorInv(db.executions, db.repairs)
    requires e in db.executions && db.executions[e].kind.Repair? && db.executions[e].state.Queued?
    requires y == db.executions[e].(state := Running, startedAt := y.startedAt)
    ensures MirrorInv(db.executions[e := y], StartRepair(db.repairs, e))
  {
    var ss := StartRepair(db.repairs, e);
    forall a | a in db.repairs && db.repairs[a].execution == e ensures Mirrors(ss[a], y) {
      assert TipLaw(db.executions, db.repairs, a);
    }
    TogetherKeepsMirror(db.executions, db.repairs, e, y, ss);
  }

  lemma ClaimKeeps(db: Db, e: Id, now: int, max: nat)
    requires Inv(db, max)
    ensures Inv(After(db, ClaimInput(db, e, now)), max) && Kept(db, After(db, ClaimInput(db, e, now)))
  {
    hide Core, MirrorInv, Kept, StartRepair;
    KeptReflexive(db);
    if e in db.executions && InFlight(db.executions[e].state) {
      var x := db.executions[e];
      var startedAt := if x.state.Queued? && x.startedAt.Some? then x.startedAt else Some(now);
      var started := Finish(db, e, Running, startedAt);
      ProgressKeepsCore(db, e, Running, startedAt, max);
      if x.state.Queued? && x.kind.Repair? {
        var ss := StartRepair(db.repairs, e);
        StartKeepsColumns(db.repairs, e);
        RepairColumnsKeepCore(started, ss, max);
        KeptTransitive(db, started, started.(repairs := ss));
        StartKeepsMirror(db, e, started.executions[e]);
      } else {
        OtherProgressKeepsMirror(db.executions, db.repairs, e, started.executions[e]);
      }
    }
  }

  /** A check of the current revision of an idle monitor. */
  lemma CheckKeeps(db: Db, m: Id, key: string, traceparent: string, max: nat)
    requires Inv(db, max) && 1 <= max
    requires m in db.monitors && db.monitors[m].current.Some? && !Busy(db.executions, m)
    requires key != "" ==> !KeyTaken(db, m, key)
    ensures db.monitors[m].current.value in db.revisions
    ensures Inv(EnqueueCheckRow(db, m, db.monitors[m].current.value, key, traceparent), max)
    ensures Kept(db, EnqueueCheckRow(db, m, db.monitors[m].current.value, key, traceparent))
  {
    assert CurrentLaw(db.monitors, db.revisions, m);
    var r := db.monitors[m].current.value;
    var x := NewExecution(m, Some(r), Check, Some(db.revisions[r].generation), NoInput, key);
    RootKeepsCore(db, x, traceparent, max);
    assert ExecutionIdLaw(db, db.nextId);
    OtherInsertKeepsMirror(db.executions, db.repairs, db.nextId, x);
  }

  lemma EnqueueKeeps(db: Db, m: Id, key: string, traceparent: string, max: nat)
    requires Inv(db, max) && 1 <= max
    ensures Inv(After(db, EnqueueCheck(db, m, key, traceparent)), max)
    ensures Kept(db, After(db, EnqueueCheck(db, m, key, traceparent)))
  {
    if EnqueueCheck(db, m, key, traceparent).Commit? && !(key != "" && KeyTaken(db, m, key)) {
      CheckKeeps(db, m, key, traceparent, max);
    }
  }

  ghost predicate Schedulable(db: Db, m: Id, r: Id) {
    m in db.monitors && db.monitors[m].current == Some(r) && !Busy(db.executions, m)
  }

  lemma ScheduleOneKeeps(db: Db, m: Id, r: Id, now: int, max: nat)
    requires Inv(db, max) && 1 <= max && Schedulable(db, m, r)
    ensures ScheduleOne(db, m, r, now).Commit?
    ensures Inv(ScheduleOne(db, m, r, now).db, max) && Kept(db, ScheduleOne(db, m, r, now).db)
    ensures forall k, q :: k != m && Schedulable(db, k, q) ==> Schedulable(ScheduleOne(db, m, r, now).db, k, q)
  {
    CheckKeeps(db, m, "", "", max);
    var d := EnqueueCheckRow(db, m, r, "", "");
    var after := ScheduleOne(db, m, r, now).db;
    MonitorColumnsKeepCore(d, after.monitors, max);
    KeptTransitive(db, d, after);
    forall k, q | k != m && Schedulable(db, k, q) ensures Schedulable(after, k, q) {
      forall e: Id ensures !(e in after.executions && after.executions[e].monitor == k && InFlight(after.executions[e].state)) {
        assert e in db.executions && db.executions[e].monitor == k && InFlight(db.executions[e].state) ==> Busy(db.executions, k);
      }
    }
  }

  lemma {:induction false} ScheduleBatchKeeps(db: Db, batch: seq<(Id, Id)>, now: int, max: nat)
    requires Inv(db, max) && 1 <= max
    requires forall i :: 0 <= i < |batch| ==> Schedulable(db, batch[i].0, batch[i].1)
    requires forall i, j :: 0 <= i < j < |batch| ==> batch[i].0 != batch[j].0
    ensures ScheduleBatch(db, batch, now).Commit?
    ensures Inv(ScheduleBatch(db, batch, now).db, max) && Kept(db, ScheduleBatch(db, batch, now).db)
    decreases |batch|
  {
    if batch != [] {
      ScheduleOneKeeps(db, batch[0].0, batch[0].1, now, max);
      var one := ScheduleOne(db, batch[0].0, batch[0].1, now).db;
      ScheduleBatchKeeps(one, batch[1..], now, max);
      KeptTransitive(db, one, ScheduleBatch(one, batch[1..], now).db);
    }
  }

  lemma ScheduleKeeps(db: Db, batch: seq<Id>, now: int, max: nat)
    requires Inv(db, max) && 1 <= max
    ensures ClaimDue(db, batch, now).Commit?
    ensures Inv(ClaimDue(db, batch, now).db, max) && Kept(db, ClaimDue(db, batch, now).db)
  {
    if Distinct(batch) && forall m :: m in batch ==> Due(db, m, now) {
      var items := SelectedRevisions(db, batch);
      forall i | 0 <= i < |items| ensures Schedulable(db, items[i].0, items[i].1) {
        assert batch[i] in batch;
      }
      ScheduleBatchKeeps(db, items, now, max);
    }
  }

  lemma PatchKeeps(db: Db, m: Id, interval: Option<int>, condition: Option<Condition>, action: PatchAction, now: int, max: nat)
    requires Inv(db, max)
    ensures Inv(After(db, PatchMonitor(db, m, interval, condition, action, now)), max)
    ensures Kept(db, After(db, PatchMonitor(db, m, interval, condition, action, now)))
  {
    var tx := PatchMonitor(db, m, interval, condition, action, now);
    if tx.Commit? {
      MonitorColumnsKeepCore(db, tx.db.monitors, max);
    }
  }

  lemma PublishKeeps(db: Db, rows: set<nat>, max: nat)
    requires Inv(db, max)
    ensures Inv(MarkPublished(db, rows), max) && Kept(db, MarkPublished(db, rows))
  {
    var after := MarkPublished(db, rows);
    MarkKeepsOutbox(db, rows);
    forall e: Id ensures ExecutionIdLaw(after, e) {
      assert ExecutionIdLaw(db, e);
    }
    forall k: Id ensures RowIdLaw(after, k) {
      assert RowIdLaw(db, k);
    }
  }

  // ---- Human judgement ----

  lemma JudgementKeepsCore(db: Db, r: Id, state: ValidationState, ms: Monitors, max: nat)
    requires Core(db, max)
    requires r in db.revisions && Pending(db.revisions[r].state) && (state.Activated? || state.Rejected?)
    requires ms.Keys == db.monitors.Keys
    requires forall m :: m in ms ==>
      && ms[m].matched == db.monitors[m].matched
      && ms[m].current == if state.Activated? && m == db.revisions[r].monitor then Some(r) else db.monitors[m].current
    ensures Core(SetValidation(db, r, state).(monitors := ms), max)
    ensures Kept(db, SetValidation(db, r, state).(monitors := ms))
  {
    var after := SetValidation(db, r, state).(monitors := ms);
    forall e: Id ensures ExecutionIdLaw(after, e) {
      assert ExecutionIdLaw(db, e);
    }
    forall k: Id ensures RowIdLaw(after, k) {
      assert RowIdLaw(db, k);
    }
    JudgementKeepsPlans(db.monitors, db.revisions, db.executions, db.repairs, r, state, ms);
    MonitorsKeepAlerts(db.monitors, ms, db.executions, db.observations, db.alerts);
  }

  lemma ConfirmKeeps(db: Db, m: Id, r: Id, condition: Condition, now: int, max: nat)
    requires Inv(db, max)
    ensures Inv(After(db, ConfirmMonitor(db, m, r, condition, now)), max)
    ensures Kept(db, After(db, ConfirmMonitor(db, m, r, condition, now)))
  {
    var tx := ConfirmMonitor(db, m, r, condition, now);
    if tx.Commit? {
      NothingElsePending(db.monitors, db.revisions, r);
      JudgementKeepsCore(db, r, Activated, tx.db.monitors, max);
      assert tx.db == SetValidation(db, r, Activated).(monitors := tx.db.monitors);
    }
  }

  lemma ReviewKeepsColumns(rs: Repairs, m: Id, r: Id, state: RepairState)
    ensures ReviewRepair(rs, m, r, state).Keys == rs.Keys
    ensures forall a :: a in rs ==>
      && ReviewRepair(rs, m, r, state)[a].monitor == rs[a].monitor
      && ReviewRepair(rs, m, r, state)[a].failedGeneration == rs[a].failedGeneration
      && ReviewRepair(rs, m, r, state)[a].candidate == rs[a].candidate
  {
  }

  lemma ReviewKeeps(db: Db, m: Id, r: Id, accept: bool, now: int, max: nat)
    requires Inv(db, max)
    ensures Inv(After(db, ReviewRevision(db, m, r, accept, now)), max)
    ensures Kept(db, After(db, ReviewRevision(db, m, r, accept, now)))
  {
    hide LineageInv, OutboxInv, AlertInv, Kept, MirrorInv, ReviewRepair;
    var tx := ReviewRevision(db, m, r, accept, now);
    if tx.Commit? {
      var state := if accept then Activated else Rejected;
      var judged := SetValidation(db, r, state).(monitors := tx.db.monitors);
      assert NewestLaw(db.monitors, db.revisions, r);
      JudgementKeepsCore(db, r, state, tx.db.monitors, max);
      ReviewKeepsColumns(db.repairs, m, r, if accept then RepairActivated else RepairRejected);
      RepairColumnsKeepCore(judged, tx.db.repairs, max);
      ReviewKeepsMirror(db.executions, db.repairs, m, r, if accept then RepairActivated else RepairRejected);
      KeptTransitive(db, judged, judged.(repairs := tx.db.repairs));
      assert tx.db == judged.(repairs := tx.db.repairs);
    } else {
      KeptReflexive(db);
    }
  }
}

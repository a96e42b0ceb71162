/** What the operations that carry no result do to the tables, row by row. */
module OperationEffects {
  import opened Rows
  import opened Transactions
  import opened Lineage
  import opened Outbox
  import opened Plans
  import opened RepairMirror
  import opened ControlPlane
  import opened Results
  import opened Histories

  // ---- Creation and manual checks ----

  /** A new monitor compiles at once, from its own URL and intent, and alerts on nothing yet. */
  lemma CreateEffects(db: Db, interval: int, url: string, intent: string, traceparent: string, max: nat)
    ensures var m, c, after := db.nextId, db.nextId + 1, Apply(db, ACreate(interval, url, intent, traceparent), max);
      if interval < 1 then after == db
      else after == db.(
        nextId := m + 2,
        monitors := db.monitors[m := Monitor(interval, EMPTY_CONDITION, Compiling, None, false, None)],
        executions := db.executions[c := Execution(m, None, Compile, None, 1, None, Queued, CompileInput(url, intent), "", None)],
        outbox := db.outbox + [OutboxRow(Compile, c, m, None, traceparent, false)])
  {
  }

  /** Exactly when a manual check is queued, and which. */
  lemma EnqueueEffects(db: Db, m: Id, key: string, traceparent: string, max: nat)
    requires Inv(db, max)
    ensures var c, after := db.nextId, Apply(db, AEnqueue(m, key, traceparent), max);
      if (forall e :: e in db.executions && db.executions[e].monitor == m ==>
            !db.executions[e].state.Queued? && !db.executions[e].state.Running? && (key != "" ==> db.executions[e].key != key))
         && m in db.monitors && db.monitors[m].status.Active? && db.monitors[m].current.Some?
      then
        && db.monitors[m].current.value in db.revisions
        && var r := db.monitors[m].current.value;
        after == db.(
          nextId := c + 1,
          executions := db.executions[c := Execution(m, Some(r), Check, Some(db.revisions[r].generation), 1, None, Queued, NoInput, key, None)],
          outbox := db.outbox + [OutboxRow(Check, c, m, Some(r), traceparent, false)])
      else after == db
  {
    hide LineageInv, OutboxInv, MirrorInv;
    assert CurrentLaw(db.monitors, db.revisions, m);
    if KeyTaken(db, m, key) {
      var e :| e in db.executions && db.executions[e].monitor == m && db.executions[e].key == key;
    }
    if Busy(db.executions, m) {
      var e :| e in db.executions && db.executions[e].monitor == m && InFlight(db.executions[e].state);
    }
  }

  // ---- Claims and leases ----

  /** The first claim starts queued work, every later one renews running work, and finished work is only read. */
  lemma ClaimEffects(db: Db, e: Id, now: int, max: nat)
    requires e in db.executions
    ensures var x, after := db.executions[e], Apply(db, AClaim(e, now), max);
      && after.executions == db.executions[e := after.executions[e]]
      && after == db.(executions := after.executions, repairs := after.repairs)
      && after.executions[e] ==
           (if x.state.Queued? then x.(state := Running, startedAt := if x.startedAt.Some? then x.startedAt else Some(now))
            else if x.state.Running? then x.(startedAt := Some(now))
            else x)
      && after.repairs.Keys == db.repairs.Keys
      && (forall a :: a in db.repairs && !(x.kind.Repair? && x.state.Queued? && db.repairs[a].execution == e && db.repairs[a].state.RepairQueued?) ==>
            after.repairs[a] == db.repairs[a])
      && (forall a :: a in db.repairs && x.kind.Repair? && x.state.Queued? && db.repairs[a].execution == e && db.repairs[a].state.RepairQueued? ==>
            after.repairs[a] == db.repairs[a].(state := RepairRunning))
  {
  }

  /** A renewal at `t` protects the execution from every sweep until the timeout, at least a second, has passed; then it is stale. */
  lemma RenewalHolds(history: seq<Action>, max: nat, e: Id, t: int, seconds: int, now: int)
    requires 1 <= max && e in Reach(history, max).executions && Reach(history, max).executions[e].state.Running?
    ensures Stale(Apply(Reach(history, max), AClaim(e, t), max), e, seconds, now) <==> t + seconds < now && t + 1 < now
  {
    hide Inv, Apply, Attempted;
    Reached(history, max);
    var db := Reach(history, max);
    ClaimEffects(db, e, t, max);
    Childless(db, e, max);
    var after := Apply(db, AClaim(e, t), max);
    assert forall c :: c in after.executions ==> c in db.executions && after.executions[c].recoveryOf == db.executions[c].recoveryOf;
  }

  /** Nothing recovers an execution in flight. */
  lemma Childless(db: Db, e: Id, max: nat)
    requires Inv(db, max) && e in db.executions && InFlight(db.executions[e].state)
    ensures forall c :: c in db.executions ==> db.executions[c].recoveryOf != Some(e)
  {
    hide OutboxInv, MirrorInv, PlanInv;
    forall c | c in db.executions ensures db.executions[c].recoveryOf != Some(e) {
      assert ParentLaw(db.executions, c);
    }
  }

  /** The worker's input is the row's own kind and input, and the plan of the revision the row is pinned to. */
  lemma InputPinned(db: Db, e: Id, max: nat)
    requires Inv(db, max) && e in db.executions
    ensures var x, input := db.executions[e], InputOf(db, e);
      && input.0 == x.kind && input.1 == x.input
      && (x.revision.None? ==> input.2 == None)
      && (x.revision.Some? ==> x.revision.value in db.revisions && input.2 == Some(db.revisions[x.revision.value].plan))
  {
    hide LineageInv, OutboxInv, MirrorInv;
    assert PinnedLaw(db.revisions, db.executions, e);
  }

  // ---- Judgement ----

  /** The attempts behind revision `r` of `m` get the verdict, and no others. */
  ghost predicate AttemptsJudged(db: Db, after: Db, m: Id, r: Id, state: RepairState) {
    && after.repairs.Keys == db.repairs.Keys
    && (forall a :: a in db.repairs && db.repairs[a].monitor == m && db.repairs[a].candidate == Some(r) ==>
          after.repairs[a] == db.repairs[a].(state := state))
    && (forall a :: a in db.repairs && !(db.repairs[a].monitor == m && db.repairs[a].candidate == Some(r)) ==> after.repairs[a] == db.repairs[a])
  }

  /** An accepted revision is active, current and scheduled; a rejected one leaves the current plan in force, or the monitor stopped. */
  lemma ReviewEffects(db: Db, m: Id, r: Id, accept: bool, now: int, max: nat)
    requires Inv(db, max) && r in db.revisions && db.revisions[r].monitor == m
    requires db.revisions[r].state.Candidate? || db.revisions[r].state.AwaitingReview?
    ensures m in db.monitors
    ensures var row, after := db.monitors[m], Apply(db, AReview(m, r, accept, now), max);
      && after == db.(revisions := after.revisions, monitors := after.monitors, repairs := after.repairs)
      && after.revisions == db.revisions[r := db.revisions[r].(state := if accept then Activated else Rejected)]
      && after.monitors == db.monitors[m :=
           if accept then row.(current := Some(r), status := Active, nextRunAt := Some(now + 60 * row.interval))
           else if row.current.None? then row.(status := Stopped) else row.(status := Active)]
      && AttemptsJudged(db, after, m, r, if accept then RepairActivated else RepairRejected)
  {
    hide Inv;
    RevisionHasMonitor(db, r, max);
  }

  /** Any other revision cannot be reviewed. */
  lemma ReviewRefused(db: Db, m: Id, r: Id, accept: bool, now: int, max: nat)
    requires r in db.revisions && db.revisions[r].monitor == m ==> db.revisions[r].state.Activated? || db.revisions[r].state.Rejected?
    ensures Attempted(db, AReview(m, r, accept, now), max) == Abort(Conflict)
  {
  }

  /** A confirmed revision is active, current and scheduled under the new condition, and nothing else moves. */
  lemma ConfirmEffects(db: Db, m: Id, r: Id, condition: Condition, now: int, max: nat)
    requires Inv(db, max) && r in db.revisions && db.revisions[r].monitor == m
    requires db.revisions[r].state.Candidate? || db.revisions[r].state.AwaitingReview?
    ensures m in db.monitors
    ensures var row := db.monitors[m];
      Apply(db, AConfirm(m, r, condition, now), max) == db.(
        revisions := db.revisions[r := db.revisions[r].(state := Activated)],
        monitors := db.monitors[m := row.(current := Some(r), condition := condition, status := Active, nextRunAt := Some(now + 60 * row.interval))])
  {
    hide LineageInv, OutboxInv, MirrorInv, RejectOthers;
    RevisionHasMonitor(db, r, max);
    NothingElsePending(db.monitors, db.revisions, r);
  }

  /** Edits replace what they name; pausing takes the monitor off the schedule, resuming makes it due at once. */
  lemma PatchEffects(db: Db, m: Id, interval: Option<int>, condition: Option<Condition>, action: PatchAction, now: int, max: nat)
    requires m in db.monitors && !action.OtherAction? && (interval.Some? ==> interval.value >= 1)
    ensures var row, after := db.monitors[m], Apply(db, APatch(m, interval, condition, action, now), max);
      && m in after.monitors && after == db.(monitors := db.monitors[m := after.monitors[m]])
      && after.monitors[m].interval == (if interval.Some? then interval.value else row.interval)
      && after.monitors[m].condition == (if condition.Some? then condition.value else row.condition)
      && after.monitors[m].current == row.current && after.monitors[m].matched == row.matched
      && (action.NoAction? ==> after.monitors[m].status == row.status && after.monitors[m].nextRunAt == row.nextRunAt)
      && (action.Pause? ==> after.monitors[m].status.Paused? && after.monitors[m].nextRunAt.None?)
      && (action.Resume? ==> after.monitors[m].status.Active? && after.monitors[m].nextRunAt == Some(now))
  {
  }

  /** A pause stops the schedule for good, a resume makes an idle monitor with a plan due, and a confirmation makes it due one interval later. */
  lemma DueAfter(db: Db, m: Id, r: Id, condition: Condition, t: int, now: int, max: nat)
    requires Inv(db, max) && m in db.monitors
    ensures !Due(Apply(db, APatch(m, None, None, Pause, t), max), m, now)
    ensures Due(Apply(db, APatch(m, None, None, Resume, t), max), m, now) <==>
      t <= now && db.monitors[m].current.Some? && Idle(db, m)
    ensures r in db.revisions && db.revisions[r].monitor == m && Pending(db.revisions[r].state) ==>
      (Due(Apply(db, AConfirm(m, r, condition, t), max), m, now) <==> t + 60 * db.monitors[m].interval <= now && Idle(db, m))
  {
    hide Inv, Apply, Attempted, Busy, Idle;
    IdleIsNotBusy(db, m);
    PatchEffects(db, m, None, None, Pause, t, max);
    PatchEffects(db, m, None, None, Resume, t, max);
    if r in db.revisions && db.revisions[r].monitor == m && Pending(db.revisions[r].state) {
      ConfirmEffects(db, m, r, condition, t, max);
    }
  }

  /** Nothing of the monitor is queued or running. */
  predicate Idle(db: Db, m: Id) {
    forall e :: e in db.executions && db.executions[e].monitor == m ==> !db.executions[e].state.Queued? && !db.executions[e].state.Running?
  }

  lemma IdleIsNotBusy(db: Db, m: Id)
    ensures Idle(db, m) <==> !Busy(db.executions, m)
  {
  }

  // ---- The scheduler ----

  /** Check `c` of monitor `m`: pinned to its current revision, announced, and one interval until the next. */
  ghost predicate Scheduled(db: Db, after: Db, m: Id, c: Id, now: int) {
    && m in db.monitors && m in after.monitors && db.monitors[m].current.Some? && db.monitors[m].current.value in db.revisions
    && var r := db.monitors[m].current.value;
    && c in after.executions && c !in db.executions
    && after.executions[c] == Execution(m, Some(r), Check, Some(db.revisions[r].generation), 1, None, Queued, NoInput, "", None)
    && OutboxRow(Check, c, m, Some(r), "", false) in after.outbox
    && after.monitors[m] == db.monitors[m].(nextRunAt := Some(now + 60 * db.monitors[m].interval))
  }

  lemma ScheduleStep(db: Db, m: Id, now: int, max: nat)
    requires Inv(db, max) && m in db.monitors && db.monitors[m].current.Some?
    ensures db.monitors[m].current.value in db.revisions
    ensures var tx := ScheduleOne(db, m, db.monitors[m].current.value, now);
      && tx.Commit? && Scheduled(db, tx.db, m, db.nextId, now)
      && tx.db == db.(nextId := db.nextId + 1, executions := db.executions[db.nextId := tx.db.executions[db.nextId]],
                      monitors := db.monitors[m := tx.db.monitors[m]], outbox := db.outbox + [tx.db.outbox[|db.outbox|]])
  {
    hide LineageInv, OutboxInv, MirrorInv;
    assert CurrentLaw(db.monitors, db.revisions, m) && ExecutionIdLaw(db, db.nextId);
  }

  /** A batch only adds one check and one message per monitor, and touches no other row. */
  ghost predicate OnlyBatch(db: Db, after: Db, batch: seq<Id>) {
    && after.nextId == db.nextId + |batch|
    && db.executions.Keys <= after.executions.Keys
    && (forall e :: e in db.executions ==> after.executions[e] == db.executions[e])
    && (forall e :: e in after.executions && e !in db.executions ==> db.nextId <= e < after.nextId)
    && after.monitors.Keys == db.monitors.Keys
    && (forall m :: m in db.monitors && m !in batch ==> after.monitors[m] == db.monitors[m])
    && db.outbox <= after.outbox && |after.outbox| == |db.outbox| + |batch|
    && after.revisions == db.revisions && after.repairs == db.repairs
    && after.observations == db.observations && after.alerts == db.alerts
  }

  lemma OnlyBatchThen(db: Db, one: Db, after: Db, m: Id, rest: seq<Id>)
    requires OnlyBatch(db, one, [m]) && OnlyBatch(one, after, rest)
    ensures OnlyBatch(db, after, [m] + rest)
  {
  }

  lemma StepIsOnly(db: Db, m: Id, now: int, max: nat)
    requires Inv(db, max) && m in db.monitors && db.monitors[m].current.Some?
    ensures ScheduleOne(db, m, db.monitors[m].current.value, now).Commit?
    ensures OnlyBatch(db, ScheduleOne(db, m, db.monitors[m].current.value, now).db, [m])
  {
    hide Inv, ScheduleOne;
    ScheduleStep(db, m, now, max);
  }

  /** Each monitor of the batch gets its own fresh check, and nothing else happens. */
  lemma {:induction false} ScheduleBatchEffects(db: Db, batch: seq<Id>, items: seq<(Id, Id)>, now: int, max: nat)
    requires Inv(db, max) && 1 <= max && Distinct(batch) && |items| == |batch|
    requires forall k :: 0 <= k < |batch| ==> items[k].0 == batch[k] && Schedulable(db, batch[k], items[k].1)
    ensures var tx := ScheduleBatch(db, items, now);
      && tx.Commit? && OnlyBatch(db, tx.db, batch)
      && forall k :: 0 <= k < |batch| ==> Scheduled(db, tx.db, batch[k], db.nextId + k, now)
    decreases |batch|
  {
    hide Inv, ScheduleOne, Scheduled, OnlyBatch, Schedulable;
    if batch == [] {
      NothingScheduled(db);
    } else {
      var m, r := batch[0], items[0].1;
      Schedules(db, m, r, now, max);
      var one := ScheduleOne(db, m, r, now).db;
      forall k | 0 <= k < |batch| - 1 ensures Schedulable(one, batch[1..][k], items[1..][k].1) {
        assert batch[0] != batch[k + 1] && Schedulable(db, batch[k + 1], items[k + 1].1);
      }
      ScheduleBatchEffects(one, batch[1..], items[1..], now, max);
      var after := ScheduleBatch(one, items[1..], now).db;
      OnlyBatchThen(db, one, after, m, batch[1..]);
      assert [m] + batch[1..] == batch;
      OneFresh(db, one, m);
      ScheduledStill(db, one, after, m, batch[1..], db.nextId, now);
      forall k | 0 < k < |batch| ensures Scheduled(db, after, batch[k], db.nextId + k, now) {
        assert Scheduled(one, after, batch[1..][k - 1], one.nextId + (k - 1), now);
        ScheduledBefore(db, one, after, m, batch[k], db.nextId + k, now);
      }
    }
  }

  lemma NothingScheduled(db: Db)
    ensures OnlyBatch(db, db, [])
  {
  }

  lemma OneFresh(db: Db, one: Db, m: Id)
    requires OnlyBatch(db, one, [m])
    ensures one.nextId == db.nextId + 1
  {
  }

  lemma Schedules(db: Db, m: Id, r: Id, now: int, max: nat)
    requires Inv(db, max) && 1 <= max && Schedulable(db, m, r)
    ensures var tx := ScheduleOne(db, m, r, now);
      && tx.Commit? && Inv(tx.db, max) && OnlyBatch(db, tx.db, [m]) && Scheduled(db, tx.db, m, db.nextId, now)
      && forall k, q :: k != m && Schedulable(db, k, q) ==> Schedulable(tx.db, k, q)
  {
    hide Inv, ScheduleOne, Scheduled, OnlyBatch;
    ScheduleOneKeeps(db, m, r, now, max);
    ScheduleStep(db, m, now, max);
    StepIsOnly(db, m, now, max);
  }

  lemma ScheduledBefore(db: Db, one: Db, after: Db, first: Id, m: Id, c: Id, now: int)
    requires OnlyBatch(db, one, [first]) && m != first && Scheduled(one, after, m, c, now)
    ensures Scheduled(db, after, m, c, now)
  {
  }

  lemma ScheduledStill(db: Db, one: Db, after: Db, m: Id, rest: seq<Id>, c: Id, now: int)
    requires OnlyBatch(one, after, rest) && m !in rest && Scheduled(db, one, m, c, now)
    ensures Scheduled(db, after, m, c, now)
  {
  }

  /** ClaimDueMonitors from a reachable database, whatever due monitors its SELECT returned. */
  lemma ScheduleEffects(history: seq<Action>, max: nat, batch: seq<Id>, now: int)
    requires 1 <= max && Distinct(batch) && forall m :: m in batch ==> Due(Reach(history, max), m, now)
    ensures var db, after := Reach(history, max), Apply(Reach(history, max), ASchedule(batch, now), max);
      && OnlyBatch(db, after, batch)
      && forall k :: 0 <= k < |batch| ==> Scheduled(db, after, batch[k], db.nextId + k, now)
  {
    hide Inv, OnlyBatch, Scheduled;
    Reached(history, max);
    var db := Reach(history, max);
    forall k | 0 <= k < |batch| ensures Schedulable(db, batch[k], SelectedRevisions(db, batch)[k].1) {
      assert batch[k] in batch;
    }
    ScheduleBatchEffects(db, batch, SelectedRevisions(db, batch), now, max);
  }

  /** When a monitor is due: active, with a plan, its time come, and nothing of it queued or running. */
  lemma DueMeans(db: Db, m: Id, now: int)
    ensures Due(db, m, now) ==> m in db.monitors
    ensures m in db.monitors ==>
      var row := db.monitors[m];
      (Due(db, m, now) <==> row.status.Active? && row.current.Some? && row.nextRunAt.Some? && row.nextRunAt.value <= now && Idle(db, m))
  {
    hide Busy, Idle;
    IdleIsNotBusy(db, m);
  }
}

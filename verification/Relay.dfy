/** Which transactions touch the outbox: all but the relay only append unpublished rows. */
module Relay {
  import opened Rows
  import opened Transactions

  /** Only the relay's commit marks rows as published. */
  lemma OnlyRelayMarks(db: Db, a: Action, max: nat, i: nat)
    requires !a.APublish?
    requires i < |Apply(db, a, max).outbox| && Apply(db, a, max).outbox[i].published
    ensures i < |db.outbox| && db.outbox[i].published
  {
    var after := Apply(db, a, max);
    assert Attempted(db, a, max).Commit? ==> Grows(db.outbox, after.outbox) by {
      OutboxGrows(db, a, max);
    }
  }

  predicate Grows(rows: seq<OutboxRow>, more: seq<OutboxRow>) {
    |rows| <= |more| && more[..|rows|] == rows && forall i :: |rows| <= i < |more| ==> !more[i].published
  }

  lemma OutboxGrows(db: Db, a: Action, max: nat)
    requires !a.APublish?
    ensures Attempted(db, a, max).Commit? ==> Grows(db.outbox, Attempted(db, a, max).db.outbox)
  {
    match a
    case ASchedule(batch, now) =>
      if Distinct(batch) && forall m :: m in batch ==> Due(db, m, now) {
        ScheduleGrows(db, SelectedRevisions(db, batch), now);
      }
    case ASweep(batch, seconds, now) =>
      if Distinct(batch) && forall e :: e in batch ==> Stale(db, e, seconds, now) {
        SweepGrows(db, SelectedExecutions(db, batch), max);
      }
    case AResult(e, r, now) => ResultGrows(db, e, r, max, now);
    case _ =>
  }

  lemma ResultGrows(db: Db, e: Id, r: ExecutionResult, max: nat, now: int)
    ensures ApplyResult(db, e, r, max, now).Commit? ==> Grows(db.outbox, ApplyResult(db, e, r, max, now).db.outbox)
  {
    if e in db.executions && InFlight(db.executions[e].state) && ResultOk(db.executions[e], r) {
      var x := db.executions[e];
      var done := Finish(db, e, StateOf(r.status), if x.startedAt.Some? then x.startedAt else Some(now));
      if r.status.StatusSucceeded? {
        SuccessGrows(done, e, x, r, now);
      } else {
        FailureGrows(done, e, x, r, max);
      }
    }
  }

  lemma SuccessGrows(done: Db, e: Id, x: Execution, r: ExecutionResult, now: int)
    ensures Grows(done.outbox, ApplySuccess(done, e, x, r, now).outbox)
  {
    if !x.kind.Check? && r.plan.ValidPlan? {
      assert ApplyPlan(done, e, x, r.plan.plan, r.autoPromote, now).outbox == done.outbox;
    }
  }

  lemma FailureGrows(done: Db, e: Id, x: Execution, r: ExecutionResult, max: nat)
    ensures ApplyFailure(done, e, x, r, max).Commit? ==> Grows(done.outbox, ApplyFailure(done, e, x, r, max).db.outbox)
  {
  }

  lemma {:induction false} ScheduleGrows(db: Db, batch: seq<(Id, Id)>, now: int)
    ensures ScheduleBatch(db, batch, now).Commit? ==> Grows(db.outbox, ScheduleBatch(db, batch, now).db.outbox)
    decreases |batch|
  {
    if batch != [] && ScheduleOne(db, batch[0].0, batch[0].1, now).Commit? {
      ScheduleGrows(ScheduleOne(db, batch[0].0, batch[0].1, now).db, batch[1..], now);
    }
  }

  lemma {:induction false} SweepGrows(db: Db, batch: seq<(Id, Execution)>, max: nat)
    ensures SweepBatch(db, batch, max).Commit? ==> Grows(db.outbox, SweepBatch(db, batch, max).db.outbox)
    decreases |batch|
  {
    if batch != [] && SweepOne(db, batch[0].0, batch[0].1, max).Commit? {
      SweepGrows(SweepOne(db, batch[0].0, batch[0].1, max).db, batch[1..], max);
    }
  }
}

/**
 The store itself: an object whose tables are updated statement by statement,
 rolled back on errors, and whose every method is one step of `Transactions`.
 */
module StoreObject {
  import opened Rows
  import opened Texts
  import opened Transactions
  import opened ControlPlane
  import opened Histories
  import opened Results
  import opened Conditions
  import OperationEffects
  import ObservationEffects

  datatype Result<+T> = Ok(value: T) | Err(error: StoreError)

  datatype Recovery = Recovery(execution: Id, replacement: Option<Id>, attempt: nat)

  class Store {
    var nextId: Id
    var monitors: map<Id, Monitor>
    var revisions: map<Id, Revision>
    var executions: map<Id, Execution>
    var repairs: map<Id, RepairAttempt>
    var observations: seq<Observation>
    var alerts: seq<Alert>
    var outbox: seq<OutboxRow>
    const maxAttempts: nat

    function State(): Db
      reads this
    {
      Db(nextId, monitors, revisions, executions, repairs, observations, alerts, outbox)
    }

    ghost predicate Valid()
      reads this
    {
      1 <= maxAttempts && Inv(State(), maxAttempts)
    }

    constructor (maxExecutionAttempts: int)
      ensures State() == EMPTY_DB && Valid()
      ensures maxAttempts == if maxExecutionAttempts < 1 then 3 else maxExecutionAttempts
    {
      nextId, monitors, revisions, executions, repairs := 0, map[], map[], map[], map[];
      observations, alerts, outbox := [], [], [];
      maxAttempts := if maxExecutionAttempts < 1 then 3 else maxExecutionAttempts;
      new;
      Reached([], maxAttempts);
    }

    /** tx.Rollback: put every table back. */
    method Rollback(saved: Db)
      modifies this
      ensures State() == saved
    {
      nextId, monitors, revisions, executions, repairs := saved.nextId, saved.monitors, saved.revisions, saved.executions, saved.repairs;
      observations, alerts, outbox := saved.observations, saved.alerts, saved.outbox;
    }

    method FreshId() returns (id: Id)
      modifies this`nextId
      ensures id == old(nextId) && nextId == id + 1
    {
      id := nextId;
      nextId := nextId + 1;
    }

    /** INSERT INTO executions, then insertOutbox. */
    method Insert(x: Execution, traceparent: string) returns (id: Id)
      modifies this
      ensures id == old(nextId) && State() == InsertExecution(old(State()), x, traceparent)
    {
      id := FreshId();
      executions := executions[id := x];
      outbox := outbox + [OutboxRow(x.kind, id, x.monitor, x.revision, traceparent, false)];
    }

    method CreateMonitor(interval: int, url: string, intent: string, traceparent: string) returns (r: Result<(Id, Id)>)
      modifies this
      ensures State() == Apply(old(State()), ACreate(interval, url, intent, traceparent), maxAttempts)
      ensures r == if interval < 1 then Err(ConstraintViolation) else Ok((old(nextId), old(nextId) + 1))
      ensures old(Valid()) ==> Valid()
    {
      hide Inv;
      ghost var before := State();
      if interval < 1 {
        r := Err(ConstraintViolation);
      } else {
        var m := FreshId();
        monitors := monitors[m := Monitor(interval, EMPTY_CONDITION, Compiling, None, false, None)];
        var e := Insert(NewExecution(m, None, Compile, None, CompileInput(url, intent), ""), traceparent);
        r := Ok((m, e));
      }
      ValidStep(before, ACreate(interval, url, intent, traceparent), maxAttempts);
    }

    /** Claims queued work, renews running work, and returns what the worker runs. */
    method GetExecutionInput(e: Id, now: int) returns (r: Result<(Kind, Input, Option<Plan>)>)
      modifies this
      ensures State() == Apply(old(State()), AClaim(e, now), maxAttempts)
      ensures if e in old(executions) then r == Ok(InputOf(old(State()), e)) else r == Err(NotFound)
      ensures r.Ok? ==> r.value.0 == old(executions)[e].kind && r.value.1 == old(executions)[e].input
      ensures old(Valid()) && r.Ok? ==>
        if old(executions)[e].revision.None? then r.value.2 == None
        else old(executions)[e].revision.value in old(revisions) && r.value.2 == Some(old(revisions)[old(executions)[e].revision.value].plan)
      ensures old(Valid()) ==> Valid()
    {
      hide Inv, Attempted, StartRepair;
      ghost var before := State();
      ClaimIs(before, e, now, maxAttempts);
      if Inv(before, maxAttempts) && e in before.executions {
        OperationEffects.InputPinned(before, e, maxAttempts);
      }
      if e !in executions {
        r := Err(NotFound);
      } else {
        var x := executions[e];
        if x.state.Queued? {
          executions := executions[e := x.(state := Running, startedAt := if x.startedAt.Some? then x.startedAt else Some(now))];
          if x.kind.Repair? {
            repairs := StartRepair(repairs, e);
          }
        } else if x.state.Running? {
          executions := executions[e := x.(startedAt := Some(now))];
        }
        var plan := None;
        if x.revision.Some? && x.revision.value in revisions {
          plan := Some(revisions[x.revision.value].plan);
        }
        r := Ok((x.kind, x.input, plan));
      }
      ValidStep(before, AClaim(e, now), maxAttempts);
    }

    /** Returns the execution and whether this call created it. */
    method EnqueueCheck(m: Id, key: string, traceparent: string) returns (r: Result<(Id, bool)>)
      modifies this
      ensures State() == Apply(old(State()), AEnqueue(m, key, traceparent), maxAttempts)
      ensures r.Ok? ==> r.value.0 in executions && executions[r.value.0].monitor == m && executions[r.value.0].key == key
      ensures r.Ok? && r.value.1 ==> r.value.0 == old(nextId) && executions[r.value.0].state.Queued? && executions[r.value.0].kind.Check?
      ensures r.Ok? <==> Attempted(old(State()), AEnqueue(m, key, traceparent), maxAttempts).Commit?
      ensures r.Ok? && !r.value.1 ==> State() == old(State()) && key != ""
      ensures r.Err? ==> State() == old(State()) && Attempted(old(State()), AEnqueue(m, key, traceparent), maxAttempts) == Abort(r.error)
      ensures old(Valid()) ==> Valid() && (r.Ok? && r.value.1 ==> r.value.0 !in old(executions))
    {
      hide Inv;
      ghost var before := State();
      if Inv(before, maxAttempts) {
        FreshIdIsFree(before, maxAttempts);
      }
      if key != "" && KeyTaken(State(), m, key) {
        var existing :| existing in executions && executions[existing].monitor == m && executions[existing].key == key;
        r := Ok((existing, false));
      } else if m !in monitors {
        r := Err(NotFound);
      } else {
        var row := monitors[m];
        if !row.status.Active? || row.current.None? || Busy(executions, m) {
          r := Err(Conflict);
        } else if row.current.value !in revisions {
          r := Err(NotFound);
        } else {
          var generation := revisions[row.current.value].generation;
          var e := Insert(NewExecution(m, row.current, Check, Some(generation), NoInput, key), traceparent);
          r := Ok((e, true));
        }
      }
      ValidStep(before, AEnqueue(m, key, traceparent), maxAttempts);
    }

    /** SELECT COALESCE(max(generation),0)+1 over the monitor's revisions. */
    method NextGeneration(m: Id) returns (g: nat)
      ensures g == MaxGeneration(revisions, m) + 1
    {
      var top, rest := 0, revisions.Keys;
      while rest != {}
        invariant rest <= revisions.Keys
        invariant forall r :: r in revisions.Keys - rest && revisions[r].monitor == m ==> revisions[r].generation <= top
        invariant top == 0 || top in Generations(revisions, m)
        decreases |rest|
      {
        var r :| r in rest;
        rest := rest - {r};
        if revisions[r].monitor == m && revisions[r].generation > top {
          top := revisions[r].generation;
        }
      }
      g := top + 1;
    }

    /** enqueueExecutionReplacement; a missing repair attempt is an error. */
    method EnqueueReplacement(e: Id, x: Execution) returns (r: Result<Id>)
      modifies this
      ensures r.Ok? <==> Replace(old(State()), e, x).Commit?
      ensures r.Ok? ==> r.value == old(nextId) && State() == Replace(old(State()), e, x).db
      ensures r.Err? ==> r.error == Replace(old(State()), e, x).error
    {
      var affected := |AttemptsAt(repairs, e)|;
      var replacement := Insert(Replacement(x, e), "");
      if x.kind.Repair? {
        repairs := MoveRepair(repairs, e, replacement);
        if affected != 1 {
          return Err(NoRepairAttempt);
        }
      }
      r := Ok(replacement);
    }

    method ApplyPlanResult(e: Id, x: Execution, plan: Plan, autoPromote: bool, now: int)
      modifies this
      ensures State() == ApplyPlan(old(State()), e, x, plan, autoPromote, now)
    {
      hide SetRepairCandidate, SetRepairState, MaxGeneration, SetCurrent, SetValidation, SetStatus;
      var m := x.monitor;
      var generation := NextGeneration(m);
      var r := FreshId();
      revisions := revisions[r := Revision(m, generation, plan, x.kind, if x.kind.Repair? then Candidate else AwaitingReview)];
      if x.kind.Compile? {
        UpdateStatus(m, AwaitingConfirmation);
        return;
      }
      repairs := SetRepairCandidate(repairs, e, r);
      if autoPromote && x.revision.Some? && m in monitors && monitors[m].current == x.revision {
        Promote(m, r, now);
        repairs := SetRepairState(repairs, e, RepairActivated);
        return;
      }
      UpdateStatus(m, UnderReview);
    }

    /** The compare-and-swap has won: install the candidate. */
    method Promote(m: Id, r: Id, now: int)
      modifies this`monitors, this`revisions
      ensures State() == SetValidation(SetCurrent(old(State()), m, r, now), r, Activated)
    {
      if m in monitors {
        monitors := monitors[m := monitors[m].(current := Some(r), status := Active, nextRunAt := Some(now + 60 * monitors[m].interval))];
      }
      if r in revisions {
        revisions := revisions[r := revisions[r].(state := Activated)];
      }
    }

    method UpdateStatus(m: Id, status: MonitorStatus)
      modifies this`monitors
      ensures State() == SetStatus(old(State()), m, status)
    {
      if m in monitors {
        monitors := monitors[m := monitors[m].(status := status)];
      }
    }

    method UpdateUnscheduled(m: Id)
      modifies this`monitors
      ensures State() == Unschedule(old(State()), m)
    {
      if m in monitors {
        monitors := monitors[m := monitors[m].(status := UnderReview, nextRunAt := None)];
      }
    }

    /** applyObservation; false means the observation is invalid and nothing was written. */
    method RecordObservation(e: Id, x: Execution, o: ResultObservation) returns (ok: bool)
      requires x.monitor in monitors
      modifies this
      ensures ok == ObservationOk(o)
      ensures ok ==> |observations| == |old(observations)| + 1 && observations[..|old(observations)|] == old(observations)
      ensures ok ==> ObservationEffects.Records(observations[|old(observations)|], e, x.monitor, old(monitors)[x.monitor].condition, o)
      ensures ok ==> State() == ApplyObservation(old(State()), e, x, o)
    {
      hide ObservationEffects.Records;
      ghost var before := State();
      ObservationEffects.RecordedBy(before, e, x, o);
      if o.priceMinor <= 0 || |o.currency| != 3 || Blank(o.title) || o.verification.OtherVerification? {
        return false;
      }
      ok := true;
      var m := x.monitor;
      var was := monitors[m].matched;
      var matched := MatchesCondition(monitors[m].condition, o);
      if o.override.Some? {
        matched := o.override.value;
      }
      var verified := IsVerified(o);
      var id := |observations|;
      observations := observations + [Observation(m, e, o.priceMinor, Upper(o.currency), o.inStock, o.title, verified, matched)];
      if x.kind.Check? && verified {
        var confirmation := x.input.Confirmation?;
        if confirmation {
          monitors := monitors[m := monitors[m].(matched := matched)];
        } else if !matched {
          monitors := monitors[m := monitors[m].(matched := false)];
        }
        if confirmation && matched && !was {
          alerts := alerts + [Alert(m, id)];
        } else if !confirmation && matched && !was {
          if !ConfirmationPending(executions, m) {
            var _ := Insert(NewExecution(m, x.revision, Check, x.generation, Confirmation(id), ""), "");
          }
        }
      }
    }

    method HandleFailure(e: Id, x: Execution, r: ExecutionResult) returns (failure: Option<StoreError>)
      modifies this
      ensures failure.None? <==> ApplyFailure(old(State()), e, x, r, maxAttempts).Commit?
      ensures failure.None? ==> State() == ApplyFailure(old(State()), e, x, r, maxAttempts).db
      ensures failure.Some? ==> failure.value == ApplyFailure(old(State()), e, x, r, maxAttempts).error
      ensures FirstStaleFailure(old(repairs), x, r) ==>
        && executions == old(executions)[old(nextId) := Execution(x.monitor, x.revision, Repair, x.generation, 1, None, Queued, NoInput, "", None)]
        && repairs == old(repairs)[old(nextId) + 1 := RepairAttempt(x.monitor, x.generation.value, old(nextId), None, RepairQueued)]
        && outbox == old(outbox) + [OutboxRow(Repair, old(nextId), x.monitor, x.revision, "", false)]
        && (x.monitor in old(monitors) ==> monitors == old(monitors)[x.monitor := old(monitors)[x.monitor].(status := UnderReview, nextRunAt := None)])
    {
      failure := None;
      var m := x.monitor;
      if ShouldRetry(x, r, maxAttempts) {
        var replaced := EnqueueReplacement(e, x);
        return if replaced.Ok? then None else Some(replaced.error);
      }
      if x.kind.Compile? {
        UpdateStatus(m, if r.status.StatusNeedsReview? then UnderReview else Stopped);
        return;
      }
      if x.kind.Repair? {
        repairs := SetRepairState(repairs, e, RepairFailed);
        UpdateUnscheduled(m);
        return;
      }
      if x.generation.None? || !(r.classification.StaleAction? || r.classification.StaleExtractor?) {
        if r.status.StatusBlocked? || r.classification.BlockedClass? {
          UpdateStatus(m, Stopped);
        } else if r.status.StatusNeedsReview? || r.classification.AmbiguousValue? || r.classification.IdentityDrift? {
          UpdateUnscheduled(m);
        }
        return;
      }
      if RepairExists(repairs, m, x.generation.value) {
        return;
      }
      var repair := Insert(NewExecution(m, x.revision, Repair, x.generation, NoInput, ""), "");
      var a := FreshId();
      repairs := repairs[a := RepairAttempt(m, x.generation.value, repair, None, RepairQueued)];
      UpdateUnscheduled(m);
    }

    /** Returns whether the result was accepted; a terminal execution accepts nothing. */
    method ApplyResult(e: Id, r: ExecutionResult, now: int) returns (accepted: Result<bool>)
      requires e in executions ==> executions[e].monitor in monitors
      modifies this
      ensures State() == Apply(old(State()), AResult(e, r, now), maxAttempts)
      ensures accepted.Ok? <==> Attempted(old(State()), AResult(e, r, now), maxAttempts).Commit?
      ensures accepted.Ok? && accepted.value ==> AcceptsResult(old(State()), AResult(e, r, now), e, maxAttempts)
      ensures accepted != Ok(true) ==> State() == old(State())
      ensures old(Valid()) ==> Valid()
    {
      hide Inv;
      ghost var before := State();
      accepted := TryResult(e, r, now);
      ValidStep(before, AResult(e, r, now), maxAttempts);
    }

    method TryResult(e: Id, r: ExecutionResult, now: int) returns (accepted: Result<bool>)
      requires e in executions ==> executions[e].monitor in monitors
      modifies this
      ensures State() == Apply(old(State()), AResult(e, r, now), maxAttempts)
      ensures accepted.Ok? <==> Attempted(old(State()), AResult(e, r, now), maxAttempts).Commit?
      ensures accepted.Ok? && accepted.value ==> AcceptsResult(old(State()), AResult(e, r, now), e, maxAttempts)
      ensures accepted != Ok(true) ==> State() == old(State())
    {
      if e !in executions {
        return Err(NotFound);
      }
      var x := executions[e];
      if !InFlight(x.state) {
        return Ok(false);
      }
      if r.status.OtherStatus? || !ResultShapeOk(x, r) {
        return Err(InvalidResult);
      }
      var saved := State();
      executions := executions[e := x.(state := StateOf(r.status), startedAt := if x.startedAt.Some? then x.startedAt else Some(now))];
      if !r.artifactsValid {
        Rollback(saved);
        return Err(InvalidResult);
      }
      if r.status.StatusSucceeded? {
        if r.plan.ValidPlan? && !x.kind.Check? {
          ApplyPlanResult(e, x, r.plan.plan, r.autoPromote, now);
        }
        if r.observation.Some? {
          var recorded := RecordObservation(e, x, r.observation.value);
          if !recorded {
            Rollback(saved);
            return Err(InvalidResult);
          }
        }
      } else {
        var failure := HandleFailure(e, x, r);
        if failure.Some? {
          Rollback(saved);
          return Err(failure.value);
        }
      }
      accepted := Ok(true);
    }

    /** SELECT stale running rows ... LIMIT; the database picks the order. */
    method SelectStale(seconds: int, limit: nat, now: int) returns (batch: seq<Id>)
      ensures |batch| <= limit && Distinct(batch) && forall e :: e in batch ==> Stale(State(), e, seconds, now)
      ensures |batch| < limit ==> forall e :: Stale(State(), e, seconds, now) ==> e in batch
    {
      batch := [];
      var rest := executions.Keys;
      while rest != {} && |batch| < limit
        invariant |batch| <= limit && Distinct(batch)
        invariant rest <= executions.Keys
        invariant forall e :: e in batch ==> e !in rest && Stale(State(), e, seconds, now)
        invariant forall e :: e in executions.Keys - rest && Stale(State(), e, seconds, now) ==> e in batch
        decreases |rest|
      {
        var e :| e in rest;
        rest := rest - {e};
        if Stale(State(), e, seconds, now) {
          batch := batch + [e];
        }
      }
    }

    /** One iteration: fail the row the SELECT returned, then replace it or give up; None if it changed meanwhile. */
    method SweepRow(e: Id, x: Execution) returns (r: Result<Option<Recovery>>)
      modifies this
      ensures r.Ok? <==> SweepOne(old(State()), e, x, maxAttempts).Commit?
      ensures r.Ok? ==> State() == SweepOne(old(State()), e, x, maxAttempts).db
      ensures r.Err? ==> r.error == SweepOne(old(State()), e, x, maxAttempts).error
      ensures r.Ok? ==> r.value == if e in old(executions) && old(executions)[e].state == x.state
        then Some(Recovery(e, if x.attempt < maxAttempts then Some(old(nextId)) else None, x.attempt)) else None
    {
      hide MoveRepair, SetRepairState, AttemptsAt;
      if !(e in executions && executions[e].state == x.state) {
        return Ok(None);
      }
      executions := executions[e := executions[e].(state := Failed)];
      if x.attempt >= maxAttempts {
        TerminalizeStale(e, x);
        return Ok(Some(Recovery(e, None, x.attempt)));
      }
      var replaced := EnqueueReplacement(e, x);
      r := if replaced.Ok? then Ok(Some(Recovery(e, Some(replaced.value), x.attempt))) else Err(replaced.error);
    }

    /** What the sweep reports about row `e` of a batch. */
    predicate Reports(recovery: Recovery, e: Id, x: Execution) {
      recovery.execution == e && recovery.attempt == x.attempt && (recovery.replacement.Some? <==> x.attempt < maxAttempts)
    }

    method SweepStaleExecutions(seconds: int, limit: nat, now: int) returns (batch: seq<Id>, recoveries: Result<seq<Recovery>>)
      modifies this
      ensures |batch| <= limit && Distinct(batch) && forall e :: e in batch ==> Stale(old(State()), e, seconds, now)
      ensures |batch| < limit ==> forall e :: Stale(old(State()), e, seconds, now) ==> e in batch
      ensures State() == Apply(old(State()), ASweep(batch, seconds, now), maxAttempts)
      ensures old(Valid()) ==> Valid() && recoveries.Ok? && |recoveries.value| == |batch|
      ensures old(Valid()) ==> forall i :: 0 <= i < |batch| ==> batch[i] in old(executions) && Reports(recoveries.value[i], batch[i], old(executions)[batch[i]])
    {
      hide Inv, Apply, SweepOne;
      batch := SelectStale(seconds, limit, now);
      ghost var before := State();
      var saved, items := State(), SelectedExecutions(State(), batch);
      assert forall i :: 0 <= i < |items| ==> items[i].0 == batch[i];
      if Inv(before, maxAttempts) {
        SweepStarts(before, batch, maxAttempts);
      }
      var done: seq<Recovery> := [];
      for i := 0 to |items|
        invariant SweepBatch(before, items, maxAttempts) == SweepBatch(State(), items[i..], maxAttempts)
        invariant Inv(before, maxAttempts) ==> |done| == i && SweepUntouched(before, State(), batch, i)
        invariant Inv(before, maxAttempts) ==> forall k :: 0 <= k < i ==> batch[k] in before.executions && Reports(done[k], batch[k], before.executions[batch[k]])
      {
        var (e, x) := items[i];
        assert items[i..][1..] == items[i + 1..];
        ghost var at := State();
        var swept := SweepRow(e, x);
        if swept.Err? {
          Rollback(saved);
          SweepIs(before, batch, seconds, now, maxAttempts);
          BatchesCommit(before, batch, seconds, now, maxAttempts);
          return batch, Err(swept.error);
        }
        done := if swept.value.Some? then done + [swept.value.value] else done;
        if Inv(before, maxAttempts) {
          SweepLeaves(before, at, batch, i, x, maxAttempts);
        }
      }
      recoveries := Ok(done);
      SweepIs(before, batch, seconds, now, maxAttempts);
      ValidStep(before, ASweep(batch, seconds, now), maxAttempts);
    }

    method TerminalizeStale(e: Id, x: Execution)
      modifies this
      ensures State() == Terminalize(old(State()), e, x)
    {
      match x.kind {
        case Compile => UpdateStatus(x.monitor, Stopped);
        case Repair =>
          repairs := SetRepairState(repairs, e, RepairFailed);
          UpdateUnscheduled(x.monitor);
        case Check =>
      }
    }

    method SelectDue(limit: nat, now: int) returns (batch: seq<Id>)
      ensures |batch| <= limit && Distinct(batch) && forall m :: m in batch ==> Due(State(), m, now)
      ensures |batch| < limit ==> forall m :: Due(State(), m, now) ==> m in batch
    {
      batch := [];
      var rest := monitors.Keys;
      while rest != {} && |batch| < limit
        invariant |batch| <= limit && Distinct(batch)
        invariant rest <= monitors.Keys
        invariant forall m :: m in batch ==> m !in rest && Due(State(), m, now)
        invariant forall m :: m in monitors.Keys - rest && Due(State(), m, now) ==> m in batch
        decreases |rest|
      {
        var m :| m in rest;
        rest := rest - {m};
        if Due(State(), m, now) {
          batch := batch + [m];
        }
      }
    }

    /** One iteration of the loop: a check for a due monitor, and its next run. */
    method ScheduleRow(m: Id, r: Id, now: int) returns (ok: bool)
      modifies this
      ensures ok <==> ScheduleOne(old(State()), m, r, now).Commit?
      ensures State() == After(old(State()), ScheduleOne(old(State()), m, r, now))
    {
      ok := r in revisions;
      if ok {
        var _ := Insert(NewExecution(m, Some(r), Check, Some(revisions[r].generation), NoInput, ""), "");
        if m in monitors {
          monitors := monitors[m := monitors[m].(nextRunAt := Some(now + 60 * monitors[m].interval))];
        }
      }
    }

    /** Returns the monitors that got a check. */
    method ClaimDueMonitors(limit: nat, now: int) returns (batch: seq<Id>, failure: Option<StoreError>)
      modifies this
      ensures |batch| <= limit && Distinct(batch) && forall m :: m in batch ==> Due(old(State()), m, now)
      ensures |batch| < limit ==> forall m :: Due(old(State()), m, now) ==> m in batch
      ensures State() == Apply(old(State()), ASchedule(batch, now), maxAttempts)
      ensures old(Valid()) ==> Valid() && failure.None?
    {
      hide Inv, Apply;
      failure := None;
      batch := SelectDue(limit, now);
      ghost var before := State();
      var saved, items := State(), SelectedRevisions(State(), batch);
      for i := 0 to |items|
        invariant ScheduleBatch(before, items, now) == ScheduleBatch(State(), items[i..], now)
      {
        var (m, r) := items[i];
        assert items[i..][1..] == items[i + 1..];
        var scheduled := ScheduleRow(m, r, now);
        if !scheduled {
          Rollback(saved);
          ScheduleIs(before, batch, now, maxAttempts);
          BatchesCommit(before, batch, 1, now, maxAttempts);
          return batch, Some(NotFound);
        }
      }
      ScheduleIs(before, batch, now, maxAttempts);
      ValidStep(before, ASchedule(batch, now), maxAttempts);
    }

    /** The statements of ConfirmMonitor, with their rollback. */
    method ActivateRevision(m: Id, r: Id, condition: Condition, now: int) returns (failure: Option<StoreError>)
      modifies this
      ensures State() == After(old(State()), Transactions.ConfirmMonitor(old(State()), m, r, condition, now))
      ensures failure == Failure(Transactions.ConfirmMonitor(old(State()), m, r, condition, now))
    {
      hide RejectOthers;
      if !(r in revisions && revisions[r].monitor == m && Pending(revisions[r].state)) {
        return Some(Conflict);
      }
      var saved := State();
      revisions := revisions[r := revisions[r].(state := Activated)];
      revisions := RejectOthers(revisions, m, r);
      if m !in monitors {
        Rollback(saved);
        return Some(NotFound);
      }
      monitors := monitors[m := monitors[m].(current := Some(r), condition := condition, status := Active,
                                             nextRunAt := Some(now + 60 * monitors[m].interval))];
      failure := None;
    }

    method ConfirmMonitor(m: Id, r: Id, condition: Condition, now: int) returns (failure: Option<StoreError>)
      modifies this
      ensures State() == Apply(old(State()), AConfirm(m, r, condition, now), maxAttempts)
      ensures failure == Failure(Attempted(old(State()), AConfirm(m, r, condition, now), maxAttempts))
      ensures failure.None? ==> m in monitors && monitors[m].current == Some(r) && monitors[m].condition == condition
      ensures old(Valid()) ==> Valid() && failure == if Reviewable(old(State()), m, r) then None else Some(Conflict)
      ensures old(Valid()) && failure.None? ==>
        && m in old(monitors) && r in old(revisions)
        && State() == old(State()).(
             revisions := old(revisions)[r := old(revisions)[r].(state := Activated)],
             monitors := old(monitors)[m := old(monitors)[m].(current := Some(r), condition := condition, status := Active,
                                                             nextRunAt := Some(now + 60 * old(monitors)[m].interval))])
    {
      hide Inv, RejectOthers, SetCurrent, SetValidation;
      ghost var before := State();
      failure := ActivateRevision(m, r, condition, now);
      if Inv(before, maxAttempts) && Reviewable(before, m, r) {
        RevisionHasMonitor(before, r, maxAttempts);
        OperationEffects.ConfirmEffects(before, m, r, condition, now, maxAttempts);
      }
      ConfirmSets(before, m, r, condition, now);
      ValidStep(before, AConfirm(m, r, condition, now), maxAttempts);
    }

    method ReviewRevision(m: Id, r: Id, accept: bool, now: int) returns (failure: Option<StoreError>)
      modifies this
      ensures State() == Apply(old(State()), AReview(m, r, accept, now), maxAttempts)
      ensures failure.Some? ==> failure.value.Conflict? && State() == old(State())
      ensures failure.None? ==> r in old(revisions)
      ensures r in old(revisions) ==>
        var row := old(revisions)[r];
        (failure.None? <==> row.monitor == m && (row.state.Candidate? || row.state.AwaitingReview?))
      ensures failure.None? ==> revisions == old(revisions)[r := old(revisions)[r].(state := if accept then Activated else Rejected)]
      ensures failure.None? && m in old(monitors) && accept ==>
        monitors == old(monitors)[m := old(monitors)[m].(current := Some(r), status := Active, nextRunAt := Some(now + 60 * old(monitors)[m].interval))]
      ensures failure.None? && m in old(monitors) && !accept ==>
        monitors == old(monitors)[m := old(monitors)[m].(status := if old(monitors)[m].current.None? then Stopped else Active)]
      ensures failure.None? ==> OperationEffects.AttemptsJudged(old(State()), State(), m, r, if accept then RepairActivated else RepairRejected)
      ensures executions == old(executions) && observations == old(observations) && alerts == old(alerts) && outbox == old(outbox)
      ensures old(Valid()) ==> Valid() && (failure.None? ==> m in old(monitors))
    {
      hide Inv, Attempted;
      ghost var before := State();
      ReviewIs(before, m, r, accept, now, maxAttempts);
      if Inv(before, maxAttempts) && r in revisions {
        RevisionHasMonitor(before, r, maxAttempts);
      }
      failure := None;
      if !(r in revisions && revisions[r].monitor == m && Pending(revisions[r].state)) {
        failure := Some(Conflict);
      } else {
        revisions := revisions[r := revisions[r].(state := if accept then Activated else Rejected)];
        if m in monitors {
          if accept {
            monitors := monitors[m := monitors[m].(current := Some(r), status := Active, nextRunAt := Some(now + 60 * monitors[m].interval))];
          } else {
            monitors := monitors[m := monitors[m].(status := if monitors[m].current.None? then Stopped else Active)];
          }
        }
        repairs := ReviewRepair(repairs, m, r, if accept then RepairActivated else RepairRejected);
      }
      ValidStep(before, AReview(m, r, accept, now), maxAttempts);
    }

    method PatchMonitor(m: Id, interval: Option<int>, condition: Option<Condition>, action: PatchAction, now: int)
      returns (failure: Option<StoreError>)
      modifies this
      ensures State() == Apply(old(State()), APatch(m, interval, condition, action, now), maxAttempts)
      ensures failure == Failure(Attempted(old(State()), APatch(m, interval, condition, action, now), maxAttempts))
      ensures failure.None? <==> m in old(monitors) && !action.OtherAction? && (interval.Some? ==> interval.value >= 1)
      ensures failure.Some? ==> State() == old(State())
      ensures failure.None? ==> m in monitors && State() == old(State()).(monitors := old(monitors)[m := monitors[m]])
      ensures failure.None? ==>
        && monitors[m].interval == (if interval.Some? then interval.value else old(monitors)[m].interval)
        && monitors[m].condition == (if condition.Some? then condition.value else old(monitors)[m].condition)
        && monitors[m].current == old(monitors)[m].current && monitors[m].matched == old(monitors)[m].matched
        && monitors[m].status == (if action.Pause? then Paused else if action.Resume? then Active else old(monitors)[m].status)
        && monitors[m].nextRunAt == (if action.Pause? then None else if action.Resume? then Some(now) else old(monitors)[m].nextRunAt)
      ensures old(Valid()) ==> Valid()
    {
      hide Inv;
      ghost var before := State();
      failure := None;
      if action.OtherAction? {
        failure := Some(UnsupportedAction);
      } else if m !in monitors {
        failure := Some(NotFound);
      } else if interval.Some? && interval.value < 1 {
        failure := Some(ConstraintViolation);
      } else {
        var row := monitors[m];
        if interval.Some? {
          row := row.(interval := interval.value);
        }
        if condition.Some? {
          row := row.(condition := condition.value);
        }
        if action.Pause? {
          row := row.(status := Paused, nextRunAt := None);
        } else if action.Resume? {
          row := row.(status := Active, nextRunAt := Some(now));
        }
        monitors := monitors[m := row];
      }
      ValidStep(before, APatch(m, interval, condition, action, now), maxAttempts);
    }

    /** The loop of ProcessOutbox: publish, mark, stop at the first refusal. */
    method PublishRows(limit: nat, reachable: nat) returns (published: seq<nat>)
      modifies this`outbox
      ensures |published| <= limit && |published| <= reachable && |outbox| == |old(outbox)|
      ensures forall i, j :: 0 <= i < j < |published| ==> published[i] < published[j]
      ensures forall i :: 0 <= i < |published| ==> published[i] < |outbox| && !old(outbox)[published[i]].published
      ensures forall k :: 0 <= k < |outbox| ==>
        outbox[k] == if k in published then old(outbox)[k].(published := true) else old(outbox)[k]
      ensures |published| < limit && |published| < reachable ==> forall i :: 0 <= i < |outbox| ==> outbox[i].published
    {
      published := [];
      var i := 0;
      while i < |outbox| && |published| < limit && |published| < reachable
        invariant 0 <= i <= |outbox| == |old(outbox)|
        invariant |published| <= limit && |published| <= reachable
        invariant forall k :: 0 <= k < |published| ==> published[k] < i && !old(outbox)[published[k]].published
        invariant forall j, k :: 0 <= j < k < |published| ==> published[j] < published[k]
        invariant forall k :: 0 <= k < |outbox| ==>
          outbox[k] == if k in published then old(outbox)[k].(published := true) else old(outbox)[k]
        invariant forall k :: 0 <= k < i ==> outbox[k].published
      {
        if !outbox[i].published {
          outbox := outbox[i := outbox[i].(published := true)];
          published := published + [i];
        }
        i := i + 1;
      }
    }

    /**
     Publishes unpublished rows in id order; `reachable` is how many publications
     succeed before the stream refuses one. Marks exactly the rows it published.
     */
    method ProcessOutbox(limit: nat, reachable: nat) returns (published: seq<nat>)
      modifies this`outbox
      ensures |published| <= limit && |published| <= reachable
      ensures State() == Apply(old(State()), APublish(set i | i in published), maxAttempts)
      ensures forall i, j :: 0 <= i < j < |published| ==> published[i] < published[j]
      ensures forall i :: 0 <= i < |published| ==> published[i] < |outbox| && !old(outbox)[published[i]].published
      ensures |published| < limit && |published| < reachable ==> forall i :: 0 <= i < |outbox| ==> outbox[i].published
      ensures old(Valid()) ==> Valid()
    {
      hide Inv, Apply;
      ghost var before := State();
      published := PublishRows(limit, reachable);
      ghost var rows := set k | k in published;
      assert outbox == MarkPublished(before, rows).outbox;
      PublishIs(before, rows, maxAttempts);
      ValidStep(before, APublish(rows), maxAttempts);
    }
  }

  /** A check failed on its plan, and its generation has no repair attempt yet. */
  predicate FirstStaleFailure(repairs: map<Id, RepairAttempt>, x: Execution, r: ExecutionResult) {
    && x.kind.Check? && x.generation.Some? && (r.classification.StaleAction? || r.classification.StaleExtractor?)
    && forall a :: a in repairs && repairs[a].monitor == x.monitor ==> repairs[a].failedGeneration != x.generation.value
  }

  /** The error a transaction reports. */
  function Failure(tx: Tx): Option<StoreError> {
    if tx.Commit? then None else Some(tx.error)
  }

  lemma ConfirmSets(db: Db, m: Id, r: Id, condition: Condition, now: int)
    ensures var tx := Transactions.ConfirmMonitor(db, m, r, condition, now);
      tx.Commit? ==> m in tx.db.monitors && tx.db.monitors[m].current == Some(r) && tx.db.monitors[m].condition == condition
  {
    hide RejectOthers;
  }

  /** The rows of a batch from `i` on are still as the SELECT saw them, and new ids lie above all of them. */
  ghost predicate SweepUntouched(before: Db, db: Db, batch: seq<Id>, i: nat) {
    && before.nextId <= db.nextId
    && forall k :: i <= k < |batch| ==> SameRow(before, db, batch[k])
  }

  predicate SameRow(before: Db, db: Db, e: Id) {
    e < before.nextId && e in before.executions && e in db.executions && db.executions[e] == before.executions[e]
  }

  lemma SweepStarts(db: Db, batch: seq<Id>, max: nat)
    requires Inv(db, max) && forall e :: e in batch ==> e in db.executions
    ensures SweepUntouched(db, db, batch, 0)
  {
    forall k | 0 <= k < |batch| ensures SameRow(db, db, batch[k]) {
      assert batch[k] in batch && ExecutionIdLaw(db, batch[k]);
    }
  }

  /** Sweeping row `i` leaves the later rows of the batch alone. */
  lemma SweepLeaves(before: Db, db: Db, batch: seq<Id>, i: nat, x: Execution, max: nat)
    requires SweepUntouched(before, db, batch, i) && i < |batch| && Distinct(batch) && SweepOne(db, batch[i], x, max).Commit?
    ensures SweepUntouched(before, SweepOne(db, batch[i], x, max).db, batch, i + 1)
  {
    hide MoveRepair, SetRepairState, AttemptsAt;
    var after := SweepOne(db, batch[i], x, max).db;
    forall k | i < k < |batch| ensures SameRow(before, after, batch[k]) {
      assert SameRow(before, db, batch[k]);
    }
  }

  lemma FreshIdIsFree(db: Db, max: nat)
    requires Inv(db, max)
    ensures db.nextId !in db.executions
  {
    assert ExecutionIdLaw(db, db.nextId);
  }

  lemma ClaimIs(db: Db, e: Id, now: int, max: nat)
    ensures Attempted(db, AClaim(e, now), max) == ClaimInput(db, e, now)
  {
  }

  lemma ReviewIs(db: Db, m: Id, r: Id, accept: bool, now: int, max: nat)
    ensures Attempted(db, AReview(m, r, accept, now), max) == Transactions.ReviewRevision(db, m, r, accept, now)
  {
  }

  lemma PublishIs(db: Db, rows: set<nat>, max: nat)
    ensures Apply(db, APublish(rows), max) == MarkPublished(db, rows)
  {
  }

  lemma SweepIs(db: Db, batch: seq<Id>, seconds: int, now: int, max: nat)
    ensures Apply(db, ASweep(batch, seconds, now), max) == After(db, Sweep(db, batch, seconds, max, now))
  {
  }

  lemma ScheduleIs(db: Db, batch: seq<Id>, now: int, max: nat)
    ensures Apply(db, ASchedule(batch, now), max) == After(db, ClaimDue(db, batch, now))
  {
  }

  /** validateResult, and the marshalling of the result that follows it. */
  predicate ResultShapeOk(x: Execution, r: ExecutionResult) {
    if r.plan.InvalidJson? then false
    else if !r.status.StatusSucceeded? then r.error != "" || !r.classification.NoClassification?
    else if x.kind.Check? then r.observation.Some?
    else r.plan.ValidPlan?
  }
}

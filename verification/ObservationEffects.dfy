/** What an accepted result records, row by row, in every reachable database. */
module ObservationEffects {
  import opened Rows
  import opened Texts
  import opened Transactions
  import opened Conditions
  import opened Lineage
  import opened Outbox
  import opened AlertEdges
  import opened ControlPlane
  import opened Results
  import opened Histories
  import opened ResultEffects

  /** The row of a posted observation: its own values, and whether it meets the condition then in force. */
  ghost predicate Records(row: Observation, e: Id, m: Id, condition: Condition, o: ResultObservation) {
    && row.monitor == m && row.execution == e
    && row.priceMinor == o.priceMinor && row.inStock == o.inStock && row.title == o.title
    && |row.currency| == |o.currency| && SameLetters(row.currency, o.currency)
    && (forall i :: 0 <= i < |row.currency| ==> !('a' <= row.currency[i] <= 'z'))
    && (row.verified <==> o.verification.Verified? || o.verification.Unspecified?)
    && (o.override.Some? ==> row.matched == o.override.value)
    && (o.override.None? ==> (row.matched <==> Meets(condition, o.priceMinor, o.currency, o.inStock)))
  }

  lemma ObservedRecords(db: Db, e: Id, m: Id, o: ResultObservation)
    requires m in db.monitors
    ensures Records(Observed(db, e, m, o), e, m, db.monitors[m].condition, o)
  {
    hide Meets, MatchesCondition;
    MatchIsMeets(db.monitors[m].condition, o);
  }

  /** An accepted success appends exactly the observation it carries. */
  lemma ObservationRecorded(history: seq<Action>, max: nat, e: Id, r: ExecutionResult, now: int)
    requires 1 <= max && AcceptsResult(Reach(history, max), AResult(e, r, now), e, max)
    requires r.status.StatusSucceeded? && r.observation.Some?
    ensures var db := Reach(history, max);
      var m, n, after := db.executions[e].monitor, |db.observations|, Apply(db, AResult(e, r, now), max);
      && m in db.monitors && |after.observations| == n + 1 && after.observations[..n] == db.observations
      && Records(after.observations[n], e, m, db.monitors[m].condition, r.observation.value)
  {
    hide Inv, ResultOk, ApplyPlan, ApplyObservation, Records;
    Reached(history, max);
    var db := Reach(history, max);
    var x := db.executions[e];
    InvIds(db, max);
    assert ExecutionIdLaw(db, e);
    var done := Finish(db, e, StateOf(r.status), if x.startedAt.Some? then x.startedAt else Some(now));
    var planned := if !x.kind.Check? && r.plan.ValidPlan? then ApplyPlan(done, e, x, r.plan.plan, r.autoPromote, now) else done;
    PlanKeepsConditions(done, e, x, if r.plan.ValidPlan? then r.plan.plan else "", r.autoPromote, now);
    ObservationAppends(planned, e, x, r.observation.value);
    ObservedRecords(planned, e, x.monitor, r.observation.value);
  }

  lemma PlanKeepsConditions(db: Db, e: Id, x: Execution, plan: Plan, autoPromote: bool, now: int)
    ensures var after := ApplyPlan(db, e, x, plan, autoPromote, now);
      && after.observations == db.observations && after.monitors.Keys == db.monitors.Keys
      && forall m :: m in db.monitors ==> after.monitors[m].condition == db.monitors[m].condition
  {
    hide MaxGeneration, SetRepairCandidate, SetRepairState;
  }

  lemma ObservationAppends(db: Db, e: Id, x: Execution, o: ResultObservation)
    requires x.monitor in db.monitors
    ensures ApplyObservation(db, e, x, o).observations == db.observations + [Observed(db, e, x.monitor, o)]
  {
    hide Observed, ConfirmationPending;
  }

  lemma RecordedBy(db: Db, e: Id, x: Execution, o: ResultObservation)
    requires x.monitor in db.monitors
    ensures var n, after := |db.observations|, ApplyObservation(db, e, x, o).observations;
      |after| == n + 1 && after[..n] == db.observations && Records(after[n], e, x.monitor, db.monitors[x.monitor].condition, o)
  {
    hide Records, ApplyObservation, Observed;
    ObservationAppends(db, e, x, o);
    ObservedRecords(db, e, x.monitor, o);
  }

  /** A result without an observation, or a failure, records none. */
  lemma NothingRecorded(history: seq<Action>, max: nat, e: Id, r: ExecutionResult, now: int)
    requires 1 <= max && AcceptsResult(Reach(history, max), AResult(e, r, now), e, max)
    requires !r.status.StatusSucceeded? || r.observation.None?
    ensures Apply(Reach(history, max), AResult(e, r, now), max).observations == Reach(history, max).observations
  {
    hide ResultOk, ApplyPlan, ApplyFailure;
    var db := Reach(history, max);
    var x := db.executions[e];
    var done := Finish(db, e, StateOf(r.status), if x.startedAt.Some? then x.startedAt else Some(now));
    PlanKeepsConditions(done, e, x, if r.plan.ValidPlan? then r.plan.plan else "", r.autoPromote, now);
    FailureRecordsNothing(done, e, x, r, max);
  }

  lemma FailureRecordsNothing(db: Db, e: Id, x: Execution, r: ExecutionResult, max: nat)
    ensures ApplyFailure(db, e, x, r, max).Commit? ==> ApplyFailure(db, e, x, r, max).db.observations == db.observations
  {
    hide ShouldRetry, RepairExists, SetRepairState, MoveRepair, AttemptsAt;
  }

  /**
   What a successful check does besides its row: a verified confirmation sets
   the latch, a verified ordinary non-match clears it, and a verified first
   match queues one confirmation; anything else leaves the monitor alone.
   */
  lemma CheckLatches(history: seq<Action>, max: nat, e: Id, r: ExecutionResult, now: int)
    requires 1 <= max && AcceptsResult(Reach(history, max), AResult(e, r, now), e, max)
    requires r.status.StatusSucceeded? && Reach(history, max).executions[e].kind.Check?
    ensures var db := Reach(history, max);
      ObservationLatches(db, Apply(db, AResult(e, r, now), max), e, db.executions[e])
  {
    hide Inv, Core, Kept, Busy, ResultOk, ApplyObservation, Apply, Attempted, ObservationLatches;
    Reached(history, max);
    var db := Reach(history, max);
    var x := db.executions[e];
    CheckSucceeds(db, e, r, now, max);
    var startedAt := if x.startedAt.Some? then x.startedAt else Some(now);
    var done := Finish(db, e, Succeeded, startedAt);
    ObservationLatched(done, e, x, r.observation.value);
    LatchedAfterwards(db, e, startedAt, Apply(db, AResult(e, r, now), max));
  }

  /** A successful check only finishes and records its observation. */
  lemma CheckSucceeds(db: Db, e: Id, r: ExecutionResult, now: int, max: nat)
    requires Inv(db, max) && AcceptsResult(db, AResult(e, r, now), e, max)
    requires r.status.StatusSucceeded? && db.executions[e].kind.Check?
    ensures var x := db.executions[e];
      var done := Finish(db, e, Succeeded, if x.startedAt.Some? then x.startedAt else Some(now));
      && r.observation.Some? && Apply(db, AResult(e, r, now), max) == ApplyObservation(done, e, x, r.observation.value)
      && x.monitor in db.monitors && db.nextId !in db.executions && !Busy(done.executions, x.monitor)
      && (x.input.Confirmation? ==> !db.monitors[x.monitor].matched)
  {
    hide Core, Kept, Busy, ApplyObservation, ApplyPlan;
    var x := db.executions[e];
    var done := Finish(db, e, Succeeded, if x.startedAt.Some? then x.startedAt else Some(now));
    QuietConfirmation(db, e, max);
    assert Finished(db, e, done);
    FinishedFacts(db, e, done, max);
  }

  /** What an observation of check `x` does besides its row. */
  ghost predicate ObservationLatches(db: Db, after: Db, e: Id, x: Execution) {
    var m, c, n := x.monitor, db.nextId, |db.observations|;
    && m in db.monitors && n < |after.observations|
    && var row, was := after.observations[n], db.monitors[m].matched;
    var first := row.verified && row.matched && !x.input.Confirmation? && !was;
    && MonitorBecomes(db, after, m,
         if row.verified && x.input.Confirmation? then db.monitors[m].(matched := row.matched)
         else if row.verified && !row.matched then db.monitors[m].(matched := false)
         else db.monitors[m])
    && after.alerts == db.alerts + (if row.verified && row.matched && x.input.Confirmation? then [Alert(m, n)] else [])
    && OnlyAdds(db, after, e, if first then map[c := Execution(m, x.revision, Check, x.generation, 1, None, Queued, Confirmation(n), "", None)] else map[])
    && after.outbox == db.outbox + (if first then [OutboxRow(Check, c, m, x.revision, "", false)] else [])
    && after.revisions == db.revisions && after.repairs == db.repairs
  }

  lemma ObservationLatched(db: Db, e: Id, x: Execution, o: ResultObservation)
    requires x.monitor in db.monitors && x.kind.Check? && !Busy(db.executions, x.monitor) && db.nextId !in db.executions
    requires x.input.Confirmation? ==> !db.monitors[x.monitor].matched
    ensures ObservationLatches(db, ApplyObservation(db, e, x, o), e, x)
  {
    hide Busy, ApplyObservation, MatchOf;
    ObservationIs(db, e, x, o);
    assert db.monitors == db.monitors[x.monitor := db.monitors[x.monitor]];
  }

  /** The finished execution is the only row in which `db` and its first statement differ. */
  lemma LatchedAfterwards(db: Db, e: Id, startedAt: Option<int>, after: Db)
    requires e in db.executions && ObservationLatches(Finish(db, e, Succeeded, startedAt), after, e, db.executions[e])
    ensures ObservationLatches(db, after, e, db.executions[e])
  {
  }

  predicate CountsAsVerified(o: ResultObservation) {
    o.verification.Verified? || o.verification.Unspecified?
  }

  /** Does the posted observation match: the worker's word if it gives one, else the condition in force. */
  predicate Matched(condition: Condition, o: ResultObservation) {
    if o.override.Some? then o.override.value else Meets(condition, o.priceMinor, o.currency, o.inStock)
  }

  /**
   While a confirmation is in flight the latch is open; a verified confirmation
   that matches sets it and creates exactly one alert, any other creates none.
   */
  lemma ConfirmationAlerts(history: seq<Action>, max: nat, e: Id, r: ExecutionResult, now: int)
    requires 1 <= max && AcceptsResult(Reach(history, max), AResult(e, r, now), e, max)
    requires r.status.StatusSucceeded? && Reach(history, max).executions[e].input.Confirmation?
    ensures var db := Reach(history, max);
      var x, after := db.executions[e], Apply(db, AResult(e, r, now), max);
      && x.kind.Check? && r.observation.Some? && x.monitor in db.monitors && !db.monitors[x.monitor].matched
      && var o := r.observation.value;
      var alerts := CountsAsVerified(o) && Matched(db.monitors[x.monitor].condition, o);
      && after.alerts == db.alerts + (if alerts then [Alert(x.monitor, |db.observations|)] else [])
      && x.monitor in after.monitors && after.monitors[x.monitor].matched == alerts
      && OnlyAdds(db, after, e, map[])
  {
    hide Reach, Apply, Meets, Attempted, Inv, ResultOk;
    var db := Reach(history, max);
    Reached(history, max);
    ConfirmationIsCheck(db, e, max);
    CheckSucceeds(db, e, r, now, max);
    CheckLatches(history, max, e, r, now);
    ObservationRecorded(history, max, e, r, now);
  }

  lemma ConfirmationIsCheck(db: Db, e: Id, max: nat)
    requires Inv(db, max) && e in db.executions && db.executions[e].input.Confirmation?
    ensures db.executions[e].kind.Check?
  {
    hide LineageInv, OutboxInv;
    assert TriggerLaw(db.executions, db.observations, e);
  }

  /** An ordinary check never alerts; it queues a confirmation exactly when it is the first verified match, so the duplicate guard is never taken. */
  lemma TriggerEnqueues(history: seq<Action>, max: nat, e: Id, r: ExecutionResult, now: int)
    requires 1 <= max && AcceptsResult(Reach(history, max), AResult(e, r, now), e, max)
    requires r.status.StatusSucceeded? && Reach(history, max).executions[e].kind.Check? && !Reach(history, max).executions[e].input.Confirmation?
    ensures var db := Reach(history, max);
      var x, c, n, after := db.executions[e], db.nextId, |db.observations|, Apply(db, AResult(e, r, now), max);
      && r.observation.Some? && x.monitor in db.monitors && after.alerts == db.alerts
      && var o := r.observation.value;
      var first := CountsAsVerified(o) && Matched(db.monitors[x.monitor].condition, o) && !db.monitors[x.monitor].matched;
      OnlyAdds(db, after, e, if first then map[c := Execution(x.monitor, x.revision, Check, x.generation, 1, None, Queued, Confirmation(n), "", None)] else map[])
  {
    hide Reach, Apply, Meets, Attempted, Inv, ResultOk;
    var db := Reach(history, max);
    Reached(history, max);
    CheckSucceeds(db, e, r, now, max);
    CheckLatches(history, max, e, r, now);
    ObservationRecorded(history, max, e, r, now);
  }

  lemma QuietConfirmation(db: Db, e: Id, max: nat)
    requires Inv(db, max) && e in db.executions && InFlight(db.executions[e].state)
    ensures db.executions[e].monitor in db.monitors && db.nextId !in db.executions
    ensures db.executions[e].input.Confirmation? ==> !db.monitors[db.executions[e].monitor].matched
  {
    hide LineageInv, OutboxInv;
    assert ExecutionIdLaw(db, e) && ExecutionIdLaw(db, db.nextId) && QuietLaw(db.monitors, db.executions, e);
  }

  /** A cheaper result of the same check matches whenever the dearer one does. */
  lemma CheaperStillMatches(history: seq<Action>, max: nat, e: Id, r: ExecutionResult, price: int, now: int)
    requires 1 <= max && AcceptsResult(Reach(history, max), AResult(e, r, now), e, max)
    requires r.status.StatusSucceeded? && r.observation.Some? && 0 < price <= r.observation.value.priceMinor
    ensures var db, n := Reach(history, max), |Reach(history, max).observations|;
      var cheaper := AResult(e, r.(observation := Some(r.observation.value.(priceMinor := price))), now);
      var dear, cheap := Apply(db, AResult(e, r, now), max).observations, Apply(db, cheaper, max).observations;
      n < |dear| && n < |cheap| && (dear[n].matched ==> cheap[n].matched)
  {
    hide Reach, Apply, Meets;
    var db, o := Reach(history, max), r.observation.value;
    var s := r.(observation := Some(o.(priceMinor := price)));
    CheaperAccepted(db, e, r, s, now, max);
    ObservationRecorded(history, max, e, r, now);
    ObservationRecorded(history, max, e, s, now);
    PriceLaws(db.monitors[db.executions[e].monitor].condition, o.priceMinor, price, o.currency, o.inStock);
  }

  lemma CheaperAccepted(db: Db, e: Id, r: ExecutionResult, s: ExecutionResult, now: int, max: nat)
    requires AcceptsResult(db, AResult(e, r, now), e, max) && r.status.StatusSucceeded? && r.observation.Some? && s.observation.Some?
    requires s == r.(observation := s.observation) && s.observation.value == r.observation.value.(priceMinor := s.observation.value.priceMinor)
    requires s.observation.value.priceMinor > 0
    ensures AcceptsResult(db, AResult(e, s, now), e, max)
  {
    hide ApplySuccess, ApplyFailure;
  }
}

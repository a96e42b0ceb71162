/**
 The store's transactions as total functions on the database. A transaction
 either commits a new database or aborts and leaves the old one; `Apply` runs
 one named transaction and `Run` a whole history of them.
 */
module Transactions {
  import opened Rows
  import opened Texts

  datatype StoreError = NotFound | Conflict | InvalidResult | NoRepairAttempt | ConstraintViolation | UnsupportedAction

  datatype Tx = Commit(db: Db) | Abort(error: StoreError)

  function After(before: Db, tx: Tx): Db {
    if tx.Commit? then tx.db else before
  }

  // ---- Statements shared by several transactions ----

  function NewExecution(monitor: Id, revision: Option<Id>, kind: Kind, generation: Option<nat>, input: Input, key: string): Execution {
    Execution(monitor, revision, kind, generation, 1, None, Queued, input, key, None)
  }

  /** The row a replacement of `x` (whose id is `e`) starts from. */
  function Replacement(x: Execution, e: Id): Execution {
    Execution(x.monitor, x.revision, x.kind, x.generation, x.attempt + 1, Some(e), Queued, x.input, "", None)
  }

  /** INSERT INTO executions together with its outbox row. */
  function InsertExecution(db: Db, x: Execution, traceparent: string): Db {
    db.(nextId := db.nextId + 1,
        executions := db.executions[db.nextId := x],
        outbox := db.outbox + [OutboxRow(x.kind, db.nextId, x.monitor, x.revision, traceparent, false)])
  }

  function SetStatus(db: Db, m: Id, status: MonitorStatus): Db {
    if m in db.monitors then db.(monitors := db.monitors[m := db.monitors[m].(status := status)]) else db
  }

  function Unschedule(db: Db, m: Id): Db {
    if m in db.monitors
    then db.(monitors := db.monitors[m := db.monitors[m].(status := UnderReview, nextRunAt := None)])
    else db
  }

  /** current_revision_id, status 'active' and next_run_at, as promotion sets them. */
  function SetCurrent(db: Db, m: Id, r: Id, now: int): Db {
    if m in db.monitors
    then
      var row := db.monitors[m];
      db.(monitors := db.monitors[m := row.(current := Some(r), status := Active, nextRunAt := Some(now + 60 * row.interval))])
    else db
  }

  function SetMatched(db: Db, m: Id, matched: bool): Db {
    if m in db.monitors then db.(monitors := db.monitors[m := db.monitors[m].(matched := matched)]) else db
  }

  function SetValidation(db: Db, r: Id, state: ValidationState): Db {
    if r in db.revisions then db.(revisions := db.revisions[r := db.revisions[r].(state := state)]) else db
  }

  function Finish(db: Db, e: Id, state: ExecutionState, startedAt: Option<int>): Db
    requires e in db.executions
  {
    db.(executions := db.executions[e := db.executions[e].(state := state, startedAt := startedAt)])
  }

  /** UPDATE repair_attempts SET state WHERE execution_id = e. */
  function SetRepairState(repairs: map<Id, RepairAttempt>, e: Id, state: RepairState): map<Id, RepairAttempt> {
    map a | a in repairs :: if repairs[a].execution == e then repairs[a].(state := state) else repairs[a]
  }

  function StartRepair(repairs: map<Id, RepairAttempt>, e: Id): map<Id, RepairAttempt> {
    map a | a in repairs ::
      if repairs[a].execution == e && repairs[a].state.RepairQueued? then repairs[a].(state := RepairRunning) else repairs[a]
  }

  function SetRepairCandidate(repairs: map<Id, RepairAttempt>, e: Id, r: Id): map<Id, RepairAttempt> {
    map a | a in repairs ::
      if repairs[a].execution == e then repairs[a].(state := RepairCandidate, candidate := Some(r)) else repairs[a]
  }

  function MoveRepair(repairs: map<Id, RepairAttempt>, e: Id, to: Id): map<Id, RepairAttempt> {
    map a | a in repairs ::
      if repairs[a].execution == e then repairs[a].(execution := to, state := RepairQueued, candidate := None) else repairs[a]
  }

  function ReviewRepair(repairs: map<Id, RepairAttempt>, m: Id, r: Id, state: RepairState): map<Id, RepairAttempt> {
    map a | a in repairs ::
      if repairs[a].monitor == m && repairs[a].candidate == Some(r) then repairs[a].(state := state) else repairs[a]
  }

  function AttemptsAt(repairs: map<Id, RepairAttempt>, e: Id): set<Id> {
    set a | a in repairs && repairs[a].execution == e
  }

  predicate Busy(executions: map<Id, Execution>, m: Id) {
    exists e :: e in executions && executions[e].monitor == m && InFlight(executions[e].state)
  }

  function Generations(revisions: map<Id, Revision>, m: Id): set<nat> {
    set r | r in revisions && revisions[r].monitor == m :: revisions[r].generation
  }

  /** COALESCE(max(s), 0). */
  ghost function MaxOf(s: set<nat>): (top: nat)
    ensures s == {} ==> top == 0
    ensures s != {} ==> top in s
    ensures forall x :: x in s ==> x <= top
  {
    if s == {} then 0
    else
      var x :| x in s;
      var rest := MaxOf(s - {x});
      assert s == (s - {x}) + {x};
      if x > rest then x else rest
  }

  // ---- Conditions and result validation ----

  predicate EqualFold(a: string, b: string) {
    |a| == |b| && forall i :: 0 <= i < |a| ==> UpperChar(a[i]) == UpperChar(b[i])
  }

  predicate MatchesCondition(condition: Condition, o: ResultObservation) {
    if condition.Undecodable? then false
    else if condition.priceBelow.None? && condition.maxPrice.None? then false
    else if condition.currency != "" && !EqualFold(condition.currency, o.currency) then false
    else if condition.requireInStock && !o.inStock then false
    else if condition.priceBelow.Some? then o.priceMinor < condition.priceBelow.value
    else o.priceMinor <= condition.maxPrice.value
  }

  predicate Blank(s: string) {
    forall i :: 0 <= i < |s| ==> s[i] in [' ', '\t', '\n', '\r']
  }

  predicate ObservationOk(o: ResultObservation) {
    o.priceMinor > 0 && |o.currency| == 3 && !Blank(o.title) && !o.verification.OtherVerification?
  }

  predicate ResultOk(x: Execution, r: ExecutionResult) {
    && !r.status.OtherStatus?
    && !r.plan.InvalidJson?
    && r.artifactsValid
    && (!r.status.StatusSucceeded? ==> r.error != "" || !r.classification.NoClassification?)
    && (r.status.StatusSucceeded? && !x.kind.Check? ==> r.plan.ValidPlan?)
    && (r.status.StatusSucceeded? && x.kind.Check? ==> r.observation.Some?)
    && (r.status.StatusSucceeded? && r.observation.Some? ==> ObservationOk(r.observation.value))
  }

  function StateOf(status: Status): ExecutionState {
    match status
    case StatusSucceeded => Succeeded
    case StatusBlocked => Blocked
    case StatusNeedsReview => NeedsReview
    case StatusFailed => Failed
    case OtherStatus => Failed
  }

  predicate ShouldRetry(x: Execution, r: ExecutionResult, max: nat) {
    && r.status.StatusFailed?
    && x.attempt < max
    && !x.kind.Check?
    && (r.classification.TransientInfrastructure? || r.classification.RateLimited?)
  }

  // ---- Transactions ----

  function CreateMonitor(db: Db, interval: int, url: string, intent: string, traceparent: string): Tx {
    if interval < 1 then Abort(ConstraintViolation)
    else
      var m := db.nextId;
      var created := db.(nextId := m + 1,
                         monitors := db.monitors[m := Monitor(interval, EMPTY_CONDITION, Compiling, None, false, None)]);
      Commit(InsertExecution(created, NewExecution(m, None, Compile, None, CompileInput(url, intent), ""), traceparent))
  }

  /** GetExecutionInput: a worker claims the execution, or renews its claim. */
  function ClaimInput(db: Db, e: Id, now: int): Tx {
    if e !in db.executions then Abort(NotFound)
    else
      var x := db.executions[e];
      if x.state.Queued? then
        var started := Finish(db, e, Running, if x.startedAt.Some? then x.startedAt else Some(now));
        Commit(if x.kind.Repair? then started.(repairs := StartRepair(db.repairs, e)) else started)
      else if x.state.Running? then Commit(Finish(db, e, Running, Some(now)))
      else Commit(db)
  }

  /** The part of the claimed input that no later transaction may change. */
  function InputOf(db: Db, e: Id): (Kind, Input, Option<Plan>)
    requires e in db.executions
  {
    var x := db.executions[e];
    (x.kind, x.input,
     if x.revision.Some? && x.revision.value in db.revisions then Some(db.revisions[x.revision.value].plan) else None)
  }

  predicate KeyTaken(db: Db, m: Id, key: string) {
    exists e :: e in db.executions && db.executions[e].monitor == m && db.executions[e].key == key
  }

  function EnqueueCheck(db: Db, m: Id, key: string, traceparent: string): Tx {
    if key != "" && KeyTaken(db, m, key) then Commit(db)
    else if m !in db.monitors then Abort(NotFound)
    else
      var row := db.monitors[m];
      if !row.status.Active? || row.current.None? || Busy(db.executions, m) then Abort(Conflict)
      else if row.current.value !in db.revisions then Abort(NotFound)
      else Commit(EnqueueCheckRow(db, m, row.current.value, key, traceparent))
  }

  function EnqueueCheckRow(db: Db, m: Id, r: Id, key: string, traceparent: string): Db
    requires r in db.revisions
  {
    InsertExecution(db, NewExecution(m, Some(r), Check, Some(db.revisions[r].generation), NoInput, key), traceparent)
  }

  predicate Due(db: Db, m: Id, now: int) {
    && m in db.monitors
    && db.monitors[m].status.Active?
    && db.monitors[m].current.Some?
    && db.monitors[m].nextRunAt.Some?
    && db.monitors[m].nextRunAt.value <= now
    && !Busy(db.executions, m)
  }

  predicate Distinct(batch: seq<Id>) {
    forall i, j :: 0 <= i < j < |batch| ==> batch[i] != batch[j]
  }

  /** One iteration of the ClaimDueMonitors loop; `r` is the revision the SELECT returned. */
  function ScheduleOne(db: Db, m: Id, r: Id, now: int): Tx {
    if r !in db.revisions then Abort(NotFound)
    else
      var d := EnqueueCheckRow(db, m, r, "", "");
      Commit(if m in d.monitors
             then d.(monitors := d.monitors[m := d.monitors[m].(nextRunAt := Some(now + 60 * d.monitors[m].interval))])
             else d)
  }

  function ScheduleBatch(db: Db, batch: seq<(Id, Id)>, now: int): Tx
    decreases |batch|
  {
    if batch == [] then Commit(db)
    else
      var one := ScheduleOne(db, batch[0].0, batch[0].1, now);
      if one.Abort? then one else ScheduleBatch(one.db, batch[1..], now)
  }

  function SelectedRevisions(db: Db, batch: seq<Id>): seq<(Id, Id)>
    requires forall m :: m in batch ==> m in db.monitors && db.monitors[m].current.Some?
  {
    seq(|batch|, i requires 0 <= i < |batch| =>
      assert batch[i] in batch;
      (batch[i], db.monitors[batch[i]].current.value))
  }

  /** ClaimDueMonitors for the rows its SELECT ... LIMIT happened to return. */
  function ClaimDue(db: Db, batch: seq<Id>, now: int): Tx {
    if Distinct(batch) && forall m :: m in batch ==> Due(db, m, now)
    then ScheduleBatch(db, SelectedRevisions(db, batch), now)
    else Commit(db)
  }

  /** enqueueExecutionReplacement. */
  function Replace(db: Db, e: Id, x: Execution): Tx {
    var inserted := InsertExecution(db, Replacement(x, e), "");
    if !x.kind.Repair? then Commit(inserted)
    else if |AttemptsAt(db.repairs, e)| != 1 then Abort(NoRepairAttempt)
    else Commit(inserted.(repairs := MoveRepair(db.repairs, e, db.nextId)))
  }

  /** applyPlanResult. */
  function ApplyPlan(db: Db, e: Id, x: Execution, plan: Plan, autoPromote: bool, now: int): Db {
    ApplyPlanAt(db, e, x, plan, autoPromote, now, MaxGeneration(db.revisions, x.monitor) + 1)
  }

  function MaxGeneration(revisions: map<Id, Revision>, m: Id): nat {
    var s := Generations(revisions, m);
    if s == {} then 0 else MaxIn(s)
  }

  /** The maximum of a non-empty set is unique, so it can be picked. */
  function MaxIn(s: set<nat>): (top: nat)
    requires s != {}
    ensures top in s && forall x :: x in s ==> x <= top
  {
    assert MaxOf(s) in s;
    assert exists t :: t in s && forall x :: x in s ==> x <= t;
    var top :| top in s && forall x :: x in s ==> x <= top;
    top
  }

  function ApplyPlanAt(db: Db, e: Id, x: Execution, plan: Plan, autoPromote: bool, now: int, g: nat): Db {
    var r := db.nextId;
    var row := Revision(x.monitor, g, plan, x.kind, if x.kind.Repair? then Candidate else AwaitingReview);
    var inserted := db.(nextId := r + 1, revisions := db.revisions[r := row]);
    if x.kind.Compile? then SetStatus(inserted, x.monitor, AwaitingConfirmation)
    else
      var proposed := inserted.(repairs := SetRepairCandidate(inserted.repairs, e, r));
      if autoPromote && CasWins(proposed, x) then
        var promoted := SetValidation(SetCurrent(proposed, x.monitor, r, now), r, Activated);
        promoted.(repairs := SetRepairState(promoted.repairs, e, RepairActivated))
      else SetStatus(proposed, x.monitor, UnderReview)
  }

  /** The compare-and-swap of automatic promotion: current_revision_id is still the repaired revision. */
  predicate CasWins(db: Db, x: Execution) {
    x.revision.Some? && x.monitor in db.monitors && db.monitors[x.monitor].current == x.revision
  }

  predicate ConfirmationPending(executions: map<Id, Execution>, m: Id) {
    exists e :: e in executions && executions[e].monitor == m && executions[e].kind.Check?
                && InFlight(executions[e].state) && executions[e].input.Confirmation?
  }

  function MatchOf(db: Db, m: Id, o: ResultObservation): bool
    requires m in db.monitors
  {
    if o.override.Some? then o.override.value else MatchesCondition(db.monitors[m].condition, o)
  }

  predicate IsVerified(o: ResultObservation) {
    o.verification.Unspecified? || o.verification.Verified?
  }

  function Observed(db: Db, e: Id, m: Id, o: ResultObservation): Observation
    requires m in db.monitors
  {
    Observation(m, e, o.priceMinor, Upper(o.currency), o.inStock, o.title, IsVerified(o), MatchOf(db, m, o))
  }

  /** applyObservation; the monitor row exists because executions reference it. */
  function ApplyObservation(db: Db, e: Id, x: Execution, o: ResultObservation): Db {
    var m := x.monitor;
    if m !in db.monitors then db
    else
      var was := db.monitors[m].matched;
      var row := Observed(db, e, m, o);
      var id := |db.observations|;
      var inserted := db.(observations := db.observations + [row]);
      if !x.kind.Check? || !row.verified then inserted
      else if x.input.Confirmation? then
        var latched := SetMatched(inserted, m, row.matched);
        if row.matched && !was then latched.(alerts := latched.alerts + [Alert(m, id)]) else latched
      else if !row.matched then SetMatched(inserted, m, false)
      else if was || ConfirmationPending(inserted.executions, m) then inserted
      else InsertExecution(inserted, NewExecution(m, x.revision, Check, x.generation, Confirmation(id), ""), "")
  }

  /** The repair row of applyFailure: one execution and one attempt. */
  function InsertRepair(db: Db, x: Execution, g: nat): Db {
    var e := db.nextId;
    var inserted := InsertExecution(db, NewExecution(x.monitor, x.revision, Repair, Some(g), NoInput, ""), "");
    inserted.(nextId := e + 2,
              repairs := db.repairs[e + 1 := RepairAttempt(x.monitor, g, e, None, RepairQueued)])
  }

  predicate RepairExists(repairs: map<Id, RepairAttempt>, m: Id, g: nat) {
    exists a :: a in repairs && repairs[a].monitor == m && repairs[a].failedGeneration == g
  }

  /** applyFailure. */
  function ApplyFailure(db: Db, e: Id, x: Execution, r: ExecutionResult, max: nat): Tx {
    var m := x.monitor;
    if ShouldRetry(x, r, max) then Replace(db, e, x)
    else if x.kind.Compile? then
      Commit(SetStatus(db, m, if r.status.StatusNeedsReview? then UnderReview else Stopped))
    else if x.kind.Repair? then
      Commit(Unschedule(db.(repairs := SetRepairState(db.repairs, e, RepairFailed)), m))
    else if x.generation.None? || !(r.classification.StaleAction? || r.classification.StaleExtractor?) then
      if r.status.StatusBlocked? || r.classification.BlockedClass? then Commit(SetStatus(db, m, Stopped))
      else if r.status.StatusNeedsReview? || r.classification.AmbiguousValue? || r.classification.IdentityDrift?
      then Commit(Unschedule(db, m))
      else Commit(db)
    else if RepairExists(db.repairs, m, x.generation.value) then Commit(db)
    else Commit(Unschedule(InsertRepair(db, x, x.generation.value), m))
  }

  function ApplySuccess(db: Db, e: Id, x: Execution, r: ExecutionResult, now: int): Db {
    var planned := if !x.kind.Check? && r.plan.ValidPlan? then ApplyPlan(db, e, x, r.plan.plan, r.autoPromote, now) else db;
    if r.observation.Some? then ApplyObservation(planned, e, x, r.observation.value) else planned
  }

  function ApplyResult(db: Db, e: Id, r: ExecutionResult, max: nat, now: int): Tx {
    if e !in db.executions then Abort(NotFound)
    else
      var x := db.executions[e];
      if !InFlight(x.state) then Commit(db)
      else if !ResultOk(x, r) then Abort(InvalidResult)
      else
        var done := Finish(db, e, StateOf(r.status), if x.startedAt.Some? then x.startedAt else Some(now));
        if r.status.StatusSucceeded? then Commit(ApplySuccess(done, e, x, r, now))
        else ApplyFailure(done, e, x, r, max)
  }

  predicate HasChild(executions: map<Id, Execution>, e: Id) {
    exists c :: c in executions && executions[c].recoveryOf == Some(e)
  }

  predicate Stale(db: Db, e: Id, seconds: int, now: int) {
    && e in db.executions
    && db.executions[e].state.Running?
    && db.executions[e].startedAt.Some?
    && db.executions[e].startedAt.value < now - (if seconds < 1 then 1 else seconds)
    && !HasChild(db.executions, e)
  }

  /** terminalizeStaleExecution. */
  function Terminalize(db: Db, e: Id, x: Execution): Db {
    match x.kind
    case Compile => SetStatus(db, x.monitor, Stopped)
    case Repair => Unschedule(db.(repairs := SetRepairState(db.repairs, e, RepairFailed)), x.monitor)
    case Check => db
  }

  /** One iteration of the sweep loop; `x` is the row the SELECT returned. */
  function SweepOne(db: Db, e: Id, x: Execution, max: nat): Tx {
    if e !in db.executions || db.executions[e].state != x.state then Commit(db)
    else
      var failed := Finish(db, e, Failed, db.executions[e].startedAt);
      if x.attempt >= max then Commit(Terminalize(failed, e, x)) else Replace(failed, e, x)
  }

  function SweepBatch(db: Db, batch: seq<(Id, Execution)>, max: nat): Tx
    decreases |batch|
  {
    if batch == [] then Commit(db)
    else
      var one := SweepOne(db, batch[0].0, batch[0].1, max);
      if one.Abort? then one else SweepBatch(one.db, batch[1..], max)
  }

  function SelectedExecutions(db: Db, batch: seq<Id>): seq<(Id, Execution)>
    requires forall e :: e in batch ==> e in db.executions
  {
    seq(|batch|, i requires 0 <= i < |batch| =>
      assert batch[i] in batch;
      (batch[i], db.executions[batch[i]]))
  }

  /** SweepStaleExecutions for the rows its SELECT ... LIMIT happened to return. */
  function Sweep(db: Db, batch: seq<Id>, seconds: int, max: nat, now: int): Tx {
    if Distinct(batch) && forall e :: e in batch ==> Stale(db, e, seconds, now)
    then SweepBatch(db, SelectedExecutions(db, batch), max)
    else Commit(db)
  }

  predicate Reviewable(db: Db, m: Id, r: Id) {
    r in db.revisions && db.revisions[r].monitor == m && Pending(db.revisions[r].state)
  }

  /** The "reject every other pending revision" statement of ConfirmMonitor. */
  function RejectOthers(revisions: map<Id, Revision>, m: Id, keep: Id): map<Id, Revision> {
    map r | r in revisions ::
      if revisions[r].monitor == m && r != keep && Pending(revisions[r].state)
      then revisions[r].(state := Rejected) else revisions[r]
  }

  function ConfirmMonitor(db: Db, m: Id, r: Id, condition: Condition, now: int): Tx {
    if !Reviewable(db, m, r) then Abort(Conflict)
    else if m !in db.monitors then Abort(NotFound)
    else
      var activated := SetValidation(db, r, Activated);
      var cleaned := activated.(revisions := RejectOthers(activated.revisions, m, r));
      var d := SetCurrent(cleaned, m, r, now);
      Commit(d.(monitors := d.monitors[m := d.monitors[m].(condition := condition)]))
  }

  function ReviewRevision(db: Db, m: Id, r: Id, accept: bool, now: int): Tx {
    if !Reviewable(db, m, r) then Abort(Conflict)
    else
      var judged := SetValidation(db, r, if accept then Activated else Rejected);
      var settled :=
        if accept then SetCurrent(judged, m, r, now)
        else SetStatus(judged, m, if m in db.monitors && db.monitors[m].current.None? then Stopped else Active);
      Commit(settled.(repairs := ReviewRepair(db.repairs, m, r, if accept then RepairActivated else RepairRejected)))
  }

  datatype PatchAction = NoAction | Pause | Resume | OtherAction

  function PatchMonitor(db: Db, m: Id, interval: Option<int>, condition: Option<Condition>, action: PatchAction, now: int): Tx {
    if action.OtherAction? then Abort(UnsupportedAction)
    else if m !in db.monitors then Abort(NotFound)
    else if interval.Some? && interval.value < 1 then Abort(ConstraintViolation)
    else
      var row := db.monitors[m];
      var timed := if interval.Some? then row.(interval := interval.value) else row;
      var conditioned := if condition.Some? then timed.(condition := condition.value) else timed;
      var acted := match action
        case Pause => conditioned.(status := Paused, nextRunAt := None)
        case Resume => conditioned.(status := Active, nextRunAt := Some(now))
        case NoAction => conditioned
        case OtherAction => conditioned;
      Commit(db.(monitors := db.monitors[m := acted]))
  }

  /** The commit of one ProcessOutbox call: `rows` are the rows it marks as published. */
  function MarkPublished(db: Db, rows: set<nat>): Db {
    db.(outbox := seq(|db.outbox|, i requires 0 <= i < |db.outbox| =>
      if i in rows then db.outbox[i].(published := true) else db.outbox[i]))
  }

  // ---- Histories ----

  datatype Action =
    | ACreate(interval: int, url: string, intent: string, traceparent: string)
    | AClaim(execution: Id, now: int)
    | AEnqueue(monitor: Id, key: string, traceparent: string)
    | ASchedule(batch: seq<Id>, now: int)
    | AResult(execution: Id, result: ExecutionResult, now: int)
    | ASweep(batch: seq<Id>, seconds: int, now: int)
    | AConfirm(monitor: Id, revision: Id, condition: Condition, now: int)
    | AReview(monitor: Id, revision: Id, accept: bool, now: int)
    | APatch(monitor: Id, newInterval: Option<int>, newCondition: Option<Condition>, action: PatchAction, now: int)
    | APublish(rows: set<nat>)

  function Attempted(db: Db, a: Action, max: nat): Tx {
    match a
    case ACreate(interval, url, intent, traceparent) => CreateMonitor(db, interval, url, intent, traceparent)
    case AClaim(e, now) => ClaimInput(db, e, now)
    case AEnqueue(m, key, traceparent) => EnqueueCheck(db, m, key, traceparent)
    case ASchedule(batch, now) => ClaimDue(db, batch, now)
    case AResult(e, r, now) => ApplyResult(db, e, r, max, now)
    case ASweep(batch, seconds, now) => Sweep(db, batch, seconds, max, now)
    case AConfirm(m, r, condition, now) => ConfirmMonitor(db, m, r, condition, now)
    case AReview(m, r, accept, now) => ReviewRevision(db, m, r, accept, now)
    case APatch(m, interval, condition, action, now) => PatchMonitor(db, m, interval, condition, action, now)
    case APublish(rows) => Commit(MarkPublished(db, rows))
  }

  function Apply(db: Db, a: Action, max: nat): Db {
    After(db, Attempted(db, a, max))
  }

  function Run(db: Db, history: seq<Action>, max: nat): Db {
    if history == [] then db
    else Apply(Run(db, history[..|history| - 1], max), history[|history| - 1], max)
  }
}

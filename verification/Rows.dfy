/**
 The rows of the control-plane database and the database itself.

 Every table is a map from row id to row, except the append-only tables
 (observations, alerts, outbox), which are sequences in commit order whose row
 id is the position. `uuid.New()` is the next value of one counter, so two
 generated ids never collide.
 */
module Rows {

  datatype Option<+T> = None | Some(value: T)

  type Id = nat

  datatype Kind = Compile | Check | Repair

  datatype ExecutionState = Queued | Running | Succeeded | Failed | Blocked | NeedsReview

  predicate InFlight(state: ExecutionState) {
    state.Queued? || state.Running?
  }

  datatype MonitorStatus = Compiling | AwaitingConfirmation | Active | UnderReview | Paused | Stopped

  /** A monitor condition as the Go code decodes it; `Undecodable` is raw JSON that does not decode. */
  datatype Condition =
    | Undecodable
    | Condition(priceBelow: Option<int>, maxPrice: Option<int>, currency: string, requireInStock: bool)

  const EMPTY_CONDITION := Condition(None, None, "", false)

  datatype Monitor = Monitor(
    interval: int,
    condition: Condition,
    status: MonitorStatus,
    current: Option<Id>,
    matched: bool,
    nextRunAt: Option<int>)

  datatype ValidationState = Candidate | AwaitingReview | Activated | Rejected

  predicate Pending(state: ValidationState) {
    state.Candidate? || state.AwaitingReview?
  }

  type Plan = string

  datatype Revision = Revision(
    monitor: Id,
    generation: nat,
    plan: Plan,
    source: Kind,
    state: ValidationState)

  datatype Input = NoInput | CompileInput(url: string, intent: string) | Confirmation(trigger: nat)

  datatype Execution = Execution(
    monitor: Id,
    revision: Option<Id>,
    kind: Kind,
    generation: Option<nat>,
    attempt: nat,
    recoveryOf: Option<Id>,
    state: ExecutionState,
    input: Input,
    key: string,
    startedAt: Option<int>)

  datatype RepairState = RepairQueued | RepairRunning | RepairCandidate | RepairActivated | RepairRejected | RepairFailed

  datatype RepairAttempt = RepairAttempt(
    monitor: Id,
    failedGeneration: nat,
    execution: Id,
    candidate: Option<Id>,
    state: RepairState)

  datatype Observation = Observation(
    monitor: Id,
    execution: Id,
    priceMinor: int,
    currency: string,
    inStock: bool,
    title: string,
    verified: bool,
    matched: bool)

  datatype Alert = Alert(monitor: Id, observation: nat)

  /** An outbox row; `subject` is the last token of "scout.monitor.<kind>". */
  datatype OutboxRow = OutboxRow(
    subject: Kind,
    execution: Id,
    monitor: Id,
    revision: Option<Id>,
    traceparent: string,
    published: bool)

  datatype Db = Db(
    nextId: Id,
    monitors: map<Id, Monitor>,
    revisions: map<Id, Revision>,
    executions: map<Id, Execution>,
    repairs: map<Id, RepairAttempt>,
    observations: seq<Observation>,
    alerts: seq<Alert>,
    outbox: seq<OutboxRow>)

  const EMPTY_DB := Db(0, map[], map[], map[], map[], [], [], [])

  /** What a worker posts: status and classification strings outside the known ones become `Other...`. */
  datatype Status = StatusSucceeded | StatusFailed | StatusBlocked | StatusNeedsReview | OtherStatus

  datatype Classification =
    | NoClassification
    | TransientInfrastructure
    | RateLimited
    | StaleAction
    | StaleExtractor
    | BlockedClass
    | AmbiguousValue
    | IdentityDrift
    | OtherClassification

  datatype Verification = Unspecified | Verified | ReviewRequired | OtherVerification

  datatype ResultObservation = ResultObservation(
    priceMinor: int,
    currency: string,
    inStock: bool,
    title: string,
    verification: Verification,
    override: Option<bool>)

  datatype PlanField = NoPlan | InvalidJson | ValidPlan(plan: Plan)

  datatype ExecutionResult = ExecutionResult(
    status: Status,
    classification: Classification,
    error: string,
    plan: PlanField,
    observation: Option<ResultObservation>,
    artifactsValid: bool,
    autoPromote: bool)
}

/** The worker's side of a delivery: receive, fetch the input, run the job, post the result, acknowledge. */
module Worker {
  import opened Rows
  import opened Transactions
  import opened ControlPlane
  import opened Delivery

  datatype Verb = Ack | Nak | Term

  /** What the world does to one delivery: does the input arrive, does the job return a result, does its acceptance reach the worker. */
  datatype Job = Job(inputArrives: bool, now: int, result: Option<ExecutionResult>, answerArrives: bool, later: int)

  lemma RunMore(s: System, steps: seq<Step>, step: Step, max: nat)
    ensures RunSystem(s, steps + [step], max) == Next(RunSystem(s, steps, max), step, max)
  {
    assert (steps + [step])[..|steps|] == steps;
  }

  method TakeStep(s: System, steps: seq<Step>, t: System, step: Step, max: nat) returns (u: System, more: seq<Step>)
    requires SystemInv(t, max) && t == RunSystem(s, steps, max)
    ensures u == Next(t, step, max) && u == RunSystem(s, more, max) && SystemInv(u, max)
  {
    hide Inv, Next, SystemInv;
    u, more := Next(t, step, max), steps + [step];
    RunMore(s, steps, step, max);
    NextKeeps(t, step, max);
  }

  /** How a worker leaves a message it could read: acknowledged and finished, or to be redelivered. */
  ghost predicate Left(s: System, t: System, w: nat, i: nat, verb: Verb) {
    && t.sessions == s.sessions - {w}
    && i < |t.db.outbox|
    && match verb
       case Ack => t.stream == s.stream - multiset{i} && Terminal(t.db, t.db.outbox[i].execution)
       case Nak => t.stream == s.stream
       case Term => false
  }

  /** The job returned a result, the store took it, and the worker heard so. */
  predicate Accepted(db: Db, e: Id, job: Job, max: nat) {
    job.result.Some? && job.answerArrives && Attempted(db, AResult(e, job.result.value, job.later), max).Commit?
  }

  function Posted(db: Db, e: Id, job: Job, max: nat): Db {
    if job.result.None? then db else Apply(db, AResult(e, job.result.value, job.later), max)
  }

  /** When a readable message is acknowledged: the execution is already finished, or its result was accepted. */
  predicate Acknowledged(db: Db, e: Id, job: Job, max: nat) {
    job.inputArrives &&
    var claimed := Apply(db, AClaim(e, job.now), max);
    Terminal(claimed, e) || Accepted(claimed, e, job, max)
  }

  /** What a delivery does to the database. */
  function Handled(db: Db, e: Id, job: Job, max: nat): Db {
    if !job.inputArrives then db
    else
      var claimed := Apply(db, AClaim(e, job.now), max);
      if Terminal(claimed, e) then claimed else Posted(claimed, e, job, max)
  }

  lemma HeldSession(s: System, w: nat, max: nat)
    requires SystemInv(s, max) && w in s.sessions
    ensures SessionLaw(s, w)
  {
    hide Inv;
  }

  /** The job has run, or has thrown: post its result and acknowledge. */
  method PostResult(s: System, before: seq<Step>, at: System, w: nat, i: nat, job: Job, max: nat) returns (t: System, verb: Verb, steps: seq<Step>)
    requires SystemInv(at, max) && at == RunSystem(s, before, max) && w in at.sessions && at.sessions[w] == Working(i)
    ensures t == RunSystem(s, steps, max) && SystemInv(t, max) && Left(at, t, w, i, verb)
    ensures i < |at.db.outbox| && t.db == Posted(at.db, at.db.outbox[i].execution, job, max)
    ensures verb.Ack? <==> Accepted(at.db, at.db.outbox[i].execution, job, max)
  {
    hide SystemInv, Attempted, RunSystem;
    HeldSession(at, w, max);
    if job.result.None? {
      t, steps := TakeStep(s, before, at, Abandon(w), max);
      return t, Nak, steps;
    }
    t, steps := TakeStep(s, before, at, SubmitResult(w, job.result.value, job.later), max);
    RowsStay(at, SubmitResult(w, job.result.value, job.later), max, i);
    if w !in t.sessions {
      return t, Nak, steps;
    }
    if !job.answerArrives {
      t, steps := TakeStep(s, steps, t, Abandon(w), max);
      return t, Nak, steps;
    }
    HeldSession(t, w, max);
    t, steps := TakeStep(s, steps, t, Acknowledge(w), max);
    return t, Ack, steps;
  }

  lemma RowsStay(s: System, step: Step, max: nat, i: nat)
    requires SystemInv(s, max) && i < |s.db.outbox|
    ensures i < |Next(s, step, max).db.outbox|
  {
    hide Inv, Next;
    NextKeepsDb(s, step, max);
    assert KeptOutboxRow(s.db.outbox, Next(s, step, max).db.outbox, i);
  }

  /** A claim keeps the execution and the outbox. */
  lemma ClaimKeepsRow(db: Db, e: Id, now: int, max: nat)
    requires e in db.executions
    ensures e in Apply(db, AClaim(e, now), max).executions && Apply(db, AClaim(e, now), max).outbox == db.outbox
  {
  }

  /** A readable message: fetch the input, acknowledge duplicates of finished work, otherwise run the job. */
  method HandleMessage(s: System, before: seq<Step>, at: System, w: nat, i: nat, job: Job, max: nat) returns (t: System, verb: Verb, steps: seq<Step>)
    requires SystemInv(at, max) && at == RunSystem(s, before, max)
    requires w in at.sessions && at.sessions[w] == Received(i) && i < |at.db.outbox| && SchemaOk(at.db.outbox[i])
    ensures t == RunSystem(s, steps, max) && SystemInv(t, max) && Left(at, t, w, i, verb)
    ensures t.db == Handled(at.db, at.db.outbox[i].execution, job, max)
    ensures verb.Ack? <==> Acknowledged(at.db, at.db.outbox[i].execution, job, max)
  {
    hide SystemInv, Attempted, RunSystem;
    if !job.inputArrives {
      t, steps := TakeStep(s, before, at, Abandon(w), max);
      return t, Nak, steps;
    }
    t, steps := TakeStep(s, before, at, FetchInput(w, job.now), max);
    RowsStay(at, FetchInput(w, job.now), max, i);
    HeldRow(at, w, max);
    ClaimKeepsRow(at.db, at.db.outbox[i].execution, job.now, max);
    if w !in t.sessions {
      return t, Nak, steps;
    }
    if t.sessions[w].Settled? {
      HeldSession(t, w, max);
      t, steps := TakeStep(s, steps, t, Acknowledge(w), max);
      return t, Ack, steps;
    }
    t, verb, steps := PostResult(s, steps, t, w, i, job, max);
  }

  lemma Streamed(s: System, i: nat, max: nat)
    requires SystemInv(s, max) && i in s.stream
    ensures i < |s.db.outbox|
  {
    hide Inv;
    assert StreamLaw(s, i) && StoredLaw(s, i);
  }

  /**
   processDelivery: a message is terminated exactly when it is unreadable,
   acknowledged exactly when its execution was finished already or the store's
   acceptance of its result arrived, and otherwise left in the stream; every
   such run is a run of the system.
   */
  method ProcessDelivery(s: System, w: nat, i: nat, job: Job, max: nat) returns (t: System, verb: Verb, steps: seq<Step>)
    requires SystemInv(s, max) && i in s.stream && w !in s.sessions
    ensures t == RunSystem(s, steps, max) && SystemInv(t, max) && t.sessions == s.sessions
    ensures i < |s.db.outbox| && (verb.Term? <==> !SchemaOk(s.db.outbox[i]))
    ensures t.stream == if verb.Nak? then s.stream else s.stream - multiset{i}
    ensures verb.Ack? ==> i < |t.db.outbox| && Terminal(t.db, t.db.outbox[i].execution)
    ensures verb.Ack? <==> SchemaOk(s.db.outbox[i]) && Acknowledged(s.db, s.db.outbox[i].execution, job, max)
    ensures t.db == if verb.Term? then s.db else Handled(s.db, s.db.outbox[i].execution, job, max)
  {
    hide SystemInv, Attempted;
    Streamed(s, i, max);
    t, steps := TakeStep(s, [], s, Deliver(w, i), max);
    if SchemaOk(t.db.outbox[i]) {
      t, verb, steps := HandleMessage(s, steps, t, w, i, job, max);
    } else {
      t, steps := TakeStep(s, steps, t, Terminate(w), max);
      verb := Term;
    }
  }
}

/**
 End to end: outbox relay, JetStream work queue, worker, result, acknowledgement.
 The relay may crash between publishing and committing, a message may be
 delivered to several workers, and a worker may vanish at any point.
 */
module Delivery {
  import opened Rows
  import opened Transactions
  import opened Lineage
  import opened Outbox
  import opened ControlPlane
  import opened Results
  import opened Histories
  import opened Relay

  /** What a worker is doing with the delivery of an outbox row; `Settled` is about to acknowledge. */
  datatype Session = Received(row: nat) | Working(row: nat) | Settled(row: nat)

  /** `stored` remembers every row the stream ever accepted, `stream` the unacknowledged copies. */
  datatype System = System(db: Db, stored: set<nat>, stream: multiset<nat>, sessions: map<nat, Session>)

  datatype Step =
    | Transact(action: Action)
    | Publish(row: nat, suppressed: bool)
    | CommitRelay(rows: set<nat>)
    | Deliver(worker: nat, row: nat)
    | Terminate(worker: nat)
    | FetchInput(worker: nat, now: int)
    | SubmitResult(worker: nat, result: ExecutionResult, now: int)
    | Acknowledge(worker: nat)
    | Abandon(worker: nat)

  const MAX_TRACEPARENT := 512

  /** queueJobSchema: the execution id is never empty, the traceparent may be too long. */
  predicate SchemaOk(row: OutboxRow) {
    |row.traceparent| <= MAX_TRACEPARENT
  }

  predicate Terminal(db: Db, e: Id) {
    e in db.executions && !InFlight(db.executions[e].state)
  }

  function Leave(s: System, w: nat): System {
    s.(sessions := s.sessions - {w})
  }

  predicate Holds(s: System, w: nat) {
    w in s.sessions && s.sessions[w].row < |s.db.outbox|
  }

  /** Remove one unacknowledged copy of the message and end the session. */
  function Consume(s: System, w: nat): System
    requires w in s.sessions
  {
    Leave(s.(stream := s.stream - multiset{s.sessions[w].row}), w)
  }

  /** One step; a step whose guard fails does nothing. */
  function Next(s: System, step: Step, max: nat): System {
    match step
    case Transact(a) =>
      if a.APublish? then s else s.(db := Apply(s.db, a, max))
    case Publish(i, suppressed) =>
      if i >= |s.db.outbox| || s.db.outbox[i].published || (suppressed && i in s.stored) then s
      else s.(stored := s.stored + {i}, stream := s.stream + multiset{i})
    case CommitRelay(rows) =>
      if rows <= s.stored then s.(db := Apply(s.db, APublish(rows), max)) else s
    case Deliver(w, i) =>
      if i in s.stream && w !in s.sessions then s.(sessions := s.sessions[w := Received(i)]) else s
    case Terminate(w) =>
      if Holds(s, w) && s.sessions[w].Received? && !SchemaOk(s.db.outbox[s.sessions[w].row]) then Consume(s, w) else s
    case FetchInput(w, now) =>
      if Holds(s, w) && s.sessions[w].Received? && SchemaOk(s.db.outbox[s.sessions[w].row]) then
        var i := s.sessions[w].row;
        var e := s.db.outbox[i].execution;
        var db := Apply(s.db, AClaim(e, now), max);
        if e !in db.executions then Leave(s, w)
        else s.(db := db, sessions := s.sessions[w := if Terminal(db, e) then Settled(i) else Working(i)])
      else s
    case SubmitResult(w, result, now) =>
      if Holds(s, w) && s.sessions[w].Working? then
        var i := s.sessions[w].row;
        var tx := Attempted(s.db, AResult(s.db.outbox[i].execution, result, now), max);
        if tx.Commit? then s.(db := tx.db, sessions := s.sessions[w := Settled(i)]) else Leave(s, w)
      else s
    case Acknowledge(w) =>
      if w in s.sessions && s.sessions[w].Settled? then Consume(s, w) else s
    case Abandon(w) => Leave(s, w)
  }

  const IDLE := System(EMPTY_DB, {}, multiset{}, map[])

  function RunSystem(s: System, steps: seq<Step>, max: nat): System {
    if steps == [] then s
    else Next(RunSystem(s, steps[..|steps| - 1], max), steps[|steps| - 1], max)
  }

  // ---- Invariant ----

  predicate PublishedLaw(s: System, i: nat) {
    i < |s.db.outbox| && s.db.outbox[i].published ==> i in s.stored
  }

  /** A stored message is still in the stream, finished, or unreadable. */
  predicate StoredLaw(s: System, i: nat) {
    i in s.stored ==>
      && i < |s.db.outbox|
      && (SchemaOk(s.db.outbox[i]) ==> i in s.stream || Terminal(s.db, s.db.outbox[i].execution))
  }

  predicate StreamLaw(s: System, i: nat) {
    i in s.stream ==> i in s.stored
  }

  predicate SessionLaw(s: System, w: nat) {
    w in s.sessions ==>
      && s.sessions[w].row in s.stored && s.sessions[w].row < |s.db.outbox|
      && (s.sessions[w].Working? ==> SchemaOk(s.db.outbox[s.sessions[w].row]))
      && (s.sessions[w].Settled? ==> Terminal(s.db, s.db.outbox[s.sessions[w].row].execution))
  }

  ghost predicate QueueInv(s: System) {
    && (forall i :: PublishedLaw(s, i))
    && (forall i :: StoredLaw(s, i))
    && (forall i :: StreamLaw(s, i))
    && (forall w :: SessionLaw(s, w))
  }

  ghost predicate SystemInv(s: System, max: nat) {
    1 <= max && Inv(s.db, max) && QueueInv(s)
  }

  /** A database step that publishes nothing leaves the queue laws alone. */
  lemma DatabaseKeepsQueue(s: System, db: Db)
    requires QueueInv(s) && Kept(s.db, db)
    requires forall i :: 0 <= i < |db.outbox| && db.outbox[i].published ==> i < |s.db.outbox| && (s.db.outbox[i].published || i in s.stored)
    ensures QueueInv(s.(db := db))
  {
    var t := s.(db := db);
    forall i: nat ensures PublishedLaw(t, i) {
      assert PublishedLaw(s, i);
    }
    forall i: nat ensures StoredLaw(t, i) && StreamLaw(t, i) {
      assert StoredLaw(s, i) && StreamLaw(s, i) && KeptOutboxRow(s.db.outbox, db.outbox, i);
      if i in s.stored {
        assert KeptRow(s.db.executions, db.executions, s.db.outbox[i].execution);
      }
    }
    forall w: nat ensures SessionLaw(t, w) {
      assert SessionLaw(s, w);
      if w in s.sessions {
        assert KeptOutboxRow(s.db.outbox, db.outbox, s.sessions[w].row);
        assert KeptRow(s.db.executions, db.executions, s.db.outbox[s.sessions[w].row].execution);
      }
    }
  }

  lemma TransactKeeps(s: System, a: Action, max: nat)
    requires SystemInv(s, max) && !a.APublish?
    ensures SystemInv(s.(db := Apply(s.db, a, max)), max)
  {
    StepKeeps(s.db, a, max);
    var db := Apply(s.db, a, max);
    forall i | 0 <= i < |db.outbox| && db.outbox[i].published ensures i < |s.db.outbox| && s.db.outbox[i].published {
      OnlyRelayMarks(s.db, a, max, i);
    }
    DatabaseKeepsQueue(s, db);
  }

  lemma RelayKeeps(s: System, rows: set<nat>, max: nat)
    requires SystemInv(s, max) && rows <= s.stored
    ensures SystemInv(s.(db := Apply(s.db, APublish(rows), max)), max)
  {
    StepKeeps(s.db, APublish(rows), max);
    DatabaseKeepsQueue(s, Apply(s.db, APublish(rows), max));
  }

  /** One copy of row i's message is gone, and row i is unreadable or finished. */
  predicate DropsOne(s: System, t: System, i: nat) {
    && t.stream == s.stream - multiset{i} && i < |s.db.outbox|
    && (SchemaOk(s.db.outbox[i]) ==> Terminal(s.db, s.db.outbox[i].execution))
  }

  /** Changing sessions and dropping a copy of a finished or unreadable message. */
  lemma SessionsKeepQueue(s: System, t: System, i: nat)
    requires QueueInv(s) && t.db == s.db && t.stored == s.stored
    requires t.stream == s.stream || DropsOne(s, t, i)
    requires forall w :: w in t.sessions ==> SessionLaw(t, w)
    ensures QueueInv(t)
  {
    forall k: nat ensures PublishedLaw(t, k) && StoredLaw(t, k) && StreamLaw(t, k) {
      assert PublishedLaw(s, k) && StoredLaw(s, k) && StreamLaw(s, k);
      assert k != i ==> (k in t.stream <==> k in s.stream);
    }
  }

  lemma SubmitFinishes(s: System, e: Id, r: ExecutionResult, now: int, max: nat)
    requires SystemInv(s, max) && Attempted(s.db, AResult(e, r, now), max).Commit?
    ensures Terminal(Apply(s.db, AResult(e, r, now), max), e)
  {
    if InFlight(s.db.executions[e].state) {
      ResultFinishes(s.db, AResult(e, r, now), e, max);
    }
  }

  lemma DeliverKeeps(s: System, w: nat, i: nat, max: nat)
    requires QueueInv(s)
    ensures QueueInv(Next(s, Deliver(w, i), max))
  {
    var t := Next(s, Deliver(w, i), max);
    assert StreamLaw(s, i) && StoredLaw(s, i);
    forall v: nat ensures v in t.sessions ==> SessionLaw(t, v) {
      assert SessionLaw(s, v);
    }
    SessionsKeepQueue(s, t, 0);
  }

  /** Ending a session, with or without consuming its message. */
  lemma LeaveKeeps(s: System, w: nat, consumed: bool)
    requires QueueInv(s)
    requires consumed ==>
      && w in s.sessions && s.sessions[w].row < |s.db.outbox|
      && (SchemaOk(s.db.outbox[s.sessions[w].row]) ==> Terminal(s.db, s.db.outbox[s.sessions[w].row].execution))
    ensures QueueInv(if consumed then Consume(s, w) else Leave(s, w))
  {
    var t := if consumed then Consume(s, w) else Leave(s, w);
    forall v: nat ensures v in t.sessions ==> SessionLaw(t, v) {
      assert SessionLaw(s, v);
    }
    SessionsKeepQueue(s, t, if consumed then s.sessions[w].row else 0);
  }

  lemma NextKeeps(s: System, step: Step, max: nat)
    requires SystemInv(s, max)
    ensures SystemInv(Next(s, step, max), max)
  {
    match step
    case Transact(a) =>
      if !a.APublish? {
        TransactKeeps(s, a, max);
      }
    case Publish(i, suppressed) => PublishKeepsQueue(s, Next(s, step, max), i);
    case CommitRelay(rows) =>
      if rows <= s.stored {
        RelayKeeps(s, rows, max);
      }
    case Deliver(w, i) => DeliverKeeps(s, w, i, max);
    case FetchInput(w, now) => FetchKeeps(s, w, now, max);
    case SubmitResult(w, result, now) => SubmitKeeps(s, w, result, now, max);
    case Terminate(w) =>
      if Next(s, step, max) != s {
        LeaveKeeps(s, w, true);
      }
    case Acknowledge(w) =>
      assert SessionLaw(s, w);
      if Next(s, step, max) != s {
        LeaveKeeps(s, w, true);
      }
    case Abandon(w) => LeaveKeeps(s, w, false);
  }

  /** The stream takes one more copy of row i's message. */
  predicate AddsOne(s: System, t: System, i: nat) {
    i < |s.db.outbox| && t == s.(stored := s.stored + {i}, stream := s.stream + multiset{i})
  }

  lemma PublishKeepsQueue(s: System, t: System, i: nat)
    requires QueueInv(s) && (t == s || AddsOne(s, t, i))
    ensures QueueInv(t)
  {
    forall k: nat ensures PublishedLaw(t, k) && StoredLaw(t, k) && StreamLaw(t, k) {
      assert PublishedLaw(s, k) && StoredLaw(s, k) && StreamLaw(s, k);
    }
    forall w: nat ensures SessionLaw(t, w) {
      assert SessionLaw(s, w);
    }
  }

  /** The row a worker holds announces an execution. */
  lemma HeldRow(s: System, w: nat, max: nat)
    requires SystemInv(s, max) && Holds(s, w)
    ensures s.db.outbox[s.sessions[w].row].execution in s.db.executions
  {
    hide LineageInv, IdsInv;
    assert RowLaw(s.db.executions, s.db.outbox, s.sessions[w].row);
  }

  lemma FetchKeeps(s: System, w: nat, now: int, max: nat)
    requires SystemInv(s, max)
    ensures SystemInv(Next(s, FetchInput(w, now), max), max)
  {
    hide Inv, Kept;
    var t := Next(s, FetchInput(w, now), max);
    if t != s {
      var claimed := s.(db := Apply(s.db, AClaim(s.db.outbox[s.sessions[w].row].execution, now), max));
      TransactKeeps(s, AClaim(s.db.outbox[s.sessions[w].row].execution, now), max);
      HeldRow(s, w, max);
      forall v: nat ensures v in t.sessions ==> SessionLaw(t, v) {
        assert SessionLaw(claimed, v);
      }
      SessionsKeepQueue(claimed, t, 0);
    }
  }

  lemma SubmitKeeps(s: System, w: nat, result: ExecutionResult, now: int, max: nat)
    requires SystemInv(s, max)
    ensures SystemInv(Next(s, SubmitResult(w, result, now), max), max)
  {
    var t := Next(s, SubmitResult(w, result, now), max);
    if Holds(s, w) && s.sessions[w].Working? {
      var i := s.sessions[w].row;
      var a := AResult(s.db.outbox[i].execution, result, now);
      var posted := s.(db := Apply(s.db, a, max));
      TransactKeeps(s, a, max);
      StepKeeps(s.db, a, max);
      assert KeptOutboxRow(s.db.outbox, posted.db.outbox, i);
      if Attempted(s.db, a, max).Commit? {
        SubmitFinishes(s, s.db.outbox[i].execution, result, now, max);
      }
      forall v: nat ensures v in t.sessions ==> SessionLaw(t, v) {
        assert SessionLaw(posted, v) && SessionLaw(posted, w);
      }
      SessionsKeepQueue(posted, t, 0);
    }
  }

  lemma {:induction false} SystemReached(steps: seq<Step>, max: nat)
    requires 1 <= max
    ensures SystemInv(RunSystem(IDLE, steps, max), max)
  {
    if steps == [] {
      Reached([], max);
    } else {
      SystemReached(steps[..|steps| - 1], max);
      NextKeeps(RunSystem(IDLE, steps[..|steps| - 1], max), steps[|steps| - 1], max);
    }
  }

  lemma NextKeepsDb(s: System, step: Step, max: nat)
    requires SystemInv(s, max)
    ensures Kept(s.db, Next(s, step, max).db)
  {
    hide Inv, Kept, Attempted;
    KeptReflexive(s.db);
    match step
    case Transact(a) => StepKeeps(s.db, a, max);
    case CommitRelay(rows) => StepKeeps(s.db, APublish(rows), max);
    case FetchInput(w, now) =>
      if Holds(s, w) {
        StepKeeps(s.db, AClaim(s.db.outbox[s.sessions[w].row].execution, now), max);
      }
    case SubmitResult(w, result, now) =>
      if Holds(s, w) {
        StepKeeps(s.db, AResult(s.db.outbox[s.sessions[w].row].execution, result, now), max);
      }
    case _ =>
  }
}

/**
 Is work ever lost? An unfinished execution keeps its message, unless that
 message is one the worker cannot read.
 */
module LostWork {
  import opened Rows
  import opened Transactions
  import opened Lineage
  import opened Outbox
  import opened ControlPlane
  import opened Histories
  import opened Delivery

  /** Row `i` was handed over, its execution is unfinished, and no copy of its message is left. */
  predicate Lost(s: System, i: nat) {
    && i < |s.db.outbox| && s.db.outbox[i].published
    && !Terminal(s.db, s.db.outbox[i].execution)
    && i !in s.stream
  }

  /** Every unfinished execution has exactly one row, and unless that row is unreadable its message is pending. */
  lemma NoLostWork(steps: seq<Step>, max: nat, e: Id) returns (i: nat)
    requires 1 <= max && e in RunSystem(IDLE, steps, max).db.executions
    ensures var s := RunSystem(IDLE, steps, max);
      && i < |s.db.outbox| && s.db.outbox[i].execution == e && Describes(s.db.outbox[i], s.db.executions[e])
      && (forall j :: 0 <= j < |s.db.outbox| && s.db.outbox[j].execution == e ==> j == i)
      && (SchemaOk(s.db.outbox[i]) && InFlight(s.db.executions[e].state) ==> !s.db.outbox[i].published || i in s.stream)
  {
    SystemReached(steps, max);
    var s := RunSystem(IDLE, steps, max);
    assert AnnouncedLaw(s.db.executions, s.db.outbox, e);
    i :| i < |s.db.outbox| && s.db.outbox[i].execution == e;
    assert RowLaw(s.db.executions, s.db.outbox, i) && PublishedLaw(s, i) && StoredLaw(s, i);
    forall j: nat | j < |s.db.outbox| && s.db.outbox[j].execution == e ensures j == i {
      assert OnceLaw(s.db.outbox, i, j);
    }
  }

  /** An acknowledgement or a settled session implies a finished execution. */
  lemma AcknowledgedIsTerminal(steps: seq<Step>, max: nat, w: nat)
    requires 1 <= max
    ensures var s := RunSystem(IDLE, steps, max);
      w in s.sessions && s.sessions[w].Settled? ==>
        s.sessions[w].row < |s.db.outbox| && Terminal(s.db, s.db.outbox[s.sessions[w].row].execution)
  {
    SystemReached(steps, max);
    assert SessionLaw(RunSystem(IDLE, steps, max), w);
  }

  lemma {:induction false} RunConcat(s: System, a: seq<Step>, b: seq<Step>, max: nat)
    ensures RunSystem(s, a + b, max) == RunSystem(RunSystem(s, a, max), b, max)
  {
    if b == [] {
      assert a + b == a;
    } else {
      RunConcat(s, a, b[..|b| - 1], max);
      assert (a + b)[..|a + b| - 1] == a + b[..|b| - 1];
    }
  }

  /** An outbox row never changes except for its published mark. */
  lemma {:induction false} RowsPersist(s: System, steps: seq<Step>, max: nat, i: nat)
    requires SystemInv(s, max) && i < |s.db.outbox|
    ensures SystemInv(RunSystem(s, steps, max), max)
    ensures KeptOutboxRow(s.db.outbox, RunSystem(s, steps, max).db.outbox, i)
  {
    if steps != [] {
      var mid := RunSystem(s, steps[..|steps| - 1], max);
      RowsPersist(s, steps[..|steps| - 1], max, i);
      NextKeeps(mid, steps[|steps| - 1], max);
      NextKeepsDb(mid, steps[|steps| - 1], max);
      assert KeptOutboxRow(mid.db.outbox, RunSystem(s, steps, max).db.outbox, i);
    }
  }

  /**
   A row whose execution is unfinished can be lost by some continuation exactly
   when its traceparent is longer than the worker's schema allows.
   */
  lemma LostIffUnreadable(steps: seq<Step>, max: nat, i: nat)
    requires 1 <= max && i < |RunSystem(IDLE, steps, max).db.outbox|
    requires !Terminal(RunSystem(IDLE, steps, max).db, RunSystem(IDLE, steps, max).db.outbox[i].execution)
    ensures (exists more :: Lost(RunSystem(IDLE, steps + more, max), i))
       <==> !SchemaOk(RunSystem(IDLE, steps, max).db.outbox[i])
  {
    SystemReached(steps, max);
    var s := RunSystem(IDLE, steps, max);
    if SchemaOk(s.db.outbox[i]) {
      forall more ensures !Lost(RunSystem(IDLE, steps + more, max), i) {
        RunConcat(IDLE, steps, more, max);
        RowsPersist(s, more, max, i);
        var t := RunSystem(s, more, max);
        assert PublishedLaw(t, i) && StoredLaw(t, i);
      }
    } else {
      var more := LoseUnreadable(s, i, max);
      RunConcat(IDLE, steps, more, max);
      assert Lost(RunSystem(IDLE, steps + more, max), i);
    }
  }

  /** Publish, commit, then let workers terminate every copy. */
  lemma LoseUnreadable(s: System, i: nat, max: nat) returns (more: seq<Step>)
    requires SystemInv(s, max) && i < |s.db.outbox|
    requires !SchemaOk(s.db.outbox[i]) && !Terminal(s.db, s.db.outbox[i].execution)
    ensures Lost(RunSystem(s, more, max), i) && RunSystem(s, more, max).db == MarkPublished(s.db, {i})
  {
    var publish, commit := Publish(i, false), CommitRelay({i});
    var b := Next(Next(s, publish, max), commit, max);
    assert PublishedLaw(s, i);
    var rest := TerminateAll(b, i, max);
    more := [publish, commit] + rest;
    RunTwo(s, publish, commit, max);
    RunConcat(s, [publish, commit], rest, max);
  }

  lemma RunTwo(s: System, p: Step, q: Step, max: nat)
    ensures RunSystem(s, [p, q], max) == Next(Next(s, p, max), q, max)
  {
    assert [p, q][..1] == [p] && [p][..0] == [];
    assert RunSystem(s, [p], max) == Next(s, p, max);
  }

  /** A worker that receives an unreadable message terminates it. */
  lemma TerminateOne(s: System, i: nat, w: nat, max: nat)
    requires i < |s.db.outbox| && !SchemaOk(s.db.outbox[i]) && i in s.stream && w !in s.sessions
    ensures var t := Next(Next(s, Deliver(w, i), max), Terminate(w), max);
      t.db == s.db && t.stream == s.stream - multiset{i}
  {
  }

  lemma {:induction false} TerminateAll(s: System, i: nat, max: nat) returns (more: seq<Step>)
    requires i < |s.db.outbox| && s.db.outbox[i].published
    requires !SchemaOk(s.db.outbox[i]) && !Terminal(s.db, s.db.outbox[i].execution)
    ensures Lost(RunSystem(s, more, max), i) && RunSystem(s, more, max).db == s.db
    decreases s.stream[i]
  {
    if i !in s.stream {
      more := [];
    } else {
      var w := MaxOf(s.sessions.Keys) + 1;
      TerminateOne(s, i, w, max);
      var t := Next(Next(s, Deliver(w, i), max), Terminate(w), max);
      var rest := TerminateAll(t, i, max);
      more := [Deliver(w, i), Terminate(w)] + rest;
      RunTwo(s, Deliver(w, i), Terminate(w), max);
      RunConcat(s, [Deliver(w, i), Terminate(w)], rest, max);
    }
  }

  /** A worker that got past the schema works on another execution. */
  lemma ReadsAnother(s: System, w: nat, max: nat, i: nat)
    requires SystemInv(s, max) && i < |s.db.outbox| && !SchemaOk(s.db.outbox[i]) && Holds(s, w)
    requires s.sessions[w].Working? || SchemaOk(s.db.outbox[s.sessions[w].row])
    ensures s.db.outbox[s.sessions[w].row].execution != s.db.outbox[i].execution
  {
    hide LineageInv, IdsInv;
    assert OnceLaw(s.db.outbox, i, s.sessions[w].row) && SessionLaw(s, w);
  }

  lemma SystemIds(s: System, max: nat)
    requires SystemInv(s, max)
    ensures IdsInv(s.db)
  {
    hide LineageInv, IdsInv, OutboxInv;
  }

  /** No step touches a queued execution whose message is unreadable, unless an operator names it. */
  lemma UnreadableWaits(s: System, step: Step, max: nat, i: nat)
    requires SystemInv(s, max) && i < |s.db.outbox| && !SchemaOk(s.db.outbox[i])
    requires s.db.outbox[i].execution in s.db.executions && s.db.executions[s.db.outbox[i].execution].state.Queued?
    requires step.Transact? ==> !Names(step.action, s.db.outbox[i].execution)
    ensures var t, e := Next(s, step, max), s.db.outbox[i].execution;
      e in t.db.executions && t.db.executions[e] == s.db.executions[e]
  {
    hide Attempted, SystemInv, IdsInv;
    var e := s.db.outbox[i].execution;
    SystemIds(s, max);
    match step
    case Transact(a) => QueuedWaits(s.db, a, e, max);
    case CommitRelay(rows) => QueuedWaits(s.db, APublish(rows), e, max);
    case FetchInput(w, now) =>
      if Holds(s, w) && SchemaOk(s.db.outbox[s.sessions[w].row]) {
        ReadsAnother(s, w, max, i);
        QueuedWaits(s.db, AClaim(s.db.outbox[s.sessions[w].row].execution, now), e, max);
      }
    case SubmitResult(w, result, now) =>
      if Holds(s, w) && s.sessions[w].Working? {
        ReadsAnother(s, w, max, i);
        QueuedWaits(s.db, AResult(s.db.outbox[s.sessions[w].row].execution, result, now), e, max);
      }
    case _ =>
  }

  /** Row `i` is unreadable, lost, and its execution still queued, so its monitor is refused new checks. */
  ghost predicate Stuck(s: System, i: nat) {
    && Lost(s, i) && !SchemaOk(s.db.outbox[i])
    && s.db.outbox[i].execution in s.db.executions
    && s.db.executions[s.db.outbox[i].execution].state.Queued?
    && Busy(s.db.executions, s.db.executions[s.db.outbox[i].execution].monitor)
  }

  lemma StuckStep(s: System, step: Step, max: nat, i: nat)
    requires SystemInv(s, max) && Stuck(s, i)
    requires step.Transact? ==> !Names(step.action, s.db.outbox[i].execution)
    ensures var t, e := Next(s, step, max), s.db.outbox[i].execution;
      Stuck(t, i) && t.db.outbox[i].execution == e && t.db.executions[e] == s.db.executions[e]
  {
    hide Apply, Inv;
    var t := Next(s, step, max);
    NextKeeps(s, step, max);
    NextKeepsDb(s, step, max);
    assert KeptOutboxRow(s.db.outbox, t.db.outbox, i);
    UnreadableWaits(s, step, max, i);
  }

  /** Lost queued work stays lost: in every run that does not name it, no relay, worker, scheduler or sweep step helps. */
  lemma {:induction false} LostStaysLost(s: System, steps: seq<Step>, max: nat, i: nat)
    requires SystemInv(s, max) && Stuck(s, i)
    requires forall k :: 0 <= k < |steps| && steps[k].Transact? ==> !Names(steps[k].action, s.db.outbox[i].execution)
    ensures var t, e := RunSystem(s, steps, max), s.db.outbox[i].execution;
      SystemInv(t, max) && Stuck(t, i) && t.db.outbox[i].execution == e && t.db.executions[e] == s.db.executions[e]
  {
    hide SystemInv, Stuck, Next;
    if steps != [] {
      var last := |steps| - 1;
      LostStaysLost(s, steps[..last], max, i);
      var mid := RunSystem(s, steps[..last], max);
      StuckStep(mid, steps[last], max, i);
      NextKeeps(mid, steps[last], max);
    }
  }

  /** The code does receive such an input: creating a monitor under a longer traceparent can leave its compilation stuck. */
  lemma CreationCanBeLost(interval: int, url: string, intent: string, traceparent: string, max: nat)
    requires 1 <= max && 1 <= interval && |traceparent| > MAX_TRACEPARENT
    ensures exists more :: Stuck(RunSystem(IDLE, [Transact(ACreate(interval, url, intent, traceparent))] + more, max), 0)
  {
    var create := Transact(ACreate(interval, url, intent, traceparent));
    var s := RunSystem(IDLE, [create], max);
    SystemReached([create], max);
    assert [create][..0] == [] && RunSystem(IDLE, [], max) == IDLE;
    assert s == Next(IDLE, create, max);
    var more := LoseUnreadable(s, 0, max);
    RunConcat(IDLE, [create], more, max);
    var t := RunSystem(IDLE, [create] + more, max);
    assert t.db.executions == s.db.executions && t.db.outbox[0].execution == s.db.outbox[0].execution;
    assert Stuck(t, 0);
  }
}

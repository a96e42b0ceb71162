/** What a sweep does to the tables, row by row, for every row of its batch. */
module SweepEffects {
  import opened Rows
  import opened Transactions
  import opened Lineage
  import opened Outbox
  import opened Plans
  import opened RepairMirror
  import opened ControlPlane
  import opened Results
  import opened Histories
  import opened ResultEffects

  /** The replacement of a stale row: the same work, one attempt later, announced under its own message. */
  ghost predicate Replaced(db: Db, after: Db, e: Id, c: Id)
    requires e in db.executions
  {
    var x := db.executions[e];
    && c in after.executions && c !in db.executions && c < after.nextId
    && after.executions[c] == Execution(x.monitor, x.revision, x.kind, x.generation, x.attempt + 1, Some(e), Queued, x.input, "", None)
    && OutboxRow(x.kind, c, x.monitor, x.revision, "", false) in after.outbox
    && (forall a :: a in db.repairs && db.repairs[a].execution == e ==>
          a in after.repairs && after.repairs[a] == db.repairs[a].(execution := c, state := RepairQueued, candidate := None))
  }

  /** A stale row out of attempts: a compilation stops its monitor, a repair fails its attempt and unschedules, a check leaves it to the next run. */
  ghost predicate GivenUp(db: Db, after: Db, e: Id)
    requires e in db.executions
  {
    var x := db.executions[e];
    && x.monitor in db.monitors && x.monitor in after.monitors
    && after.monitors[x.monitor] ==
         (if x.kind.Compile? then db.monitors[x.monitor].(status := Stopped)
          else if x.kind.Repair? then db.monitors[x.monitor].(status := UnderReview, nextRunAt := None)
          else db.monitors[x.monitor])
    && (forall a :: a in db.repairs && db.repairs[a].execution == e ==>
          a in after.repairs && after.repairs[a] == db.repairs[a].(state := RepairFailed))
  }

  /** The row fails, and is replaced below the bound or given up at it. */
  ghost predicate Swept(db: Db, after: Db, e: Id, max: nat) {
    && e in db.executions && e in after.executions && after.executions[e] == db.executions[e].(state := Failed)
    && db.executions[e].monitor in db.monitors && db.executions[e].monitor in after.monitors
    && if db.executions[e].attempt < max
       then after.monitors[db.executions[e].monitor] == db.monitors[db.executions[e].monitor] && exists c :: Replaced(db, after, e, c)
       else GivenUp(db, after, e)
  }

  /** Nothing outside the batch moves. */
  ghost predicate OnlyBatch(db: Db, after: Db, batch: seq<Id>) {
    && db.nextId <= after.nextId && db.executions.Keys <= after.executions.Keys
    && (forall e :: e in db.executions && e !in batch ==> after.executions[e] == db.executions[e])
    && (forall c :: c in after.executions && c !in db.executions ==> c < after.nextId && after.executions[c].recoveryOf.Some? && after.executions[c].recoveryOf.value in batch)
    && after.monitors.Keys == db.monitors.Keys
    && (forall m :: m in db.monitors && (forall e :: e in batch && e in db.executions ==> db.executions[e].monitor != m) ==> after.monitors[m] == db.monitors[m])
    && db.outbox <= after.outbox
    && after.repairs.Keys == db.repairs.Keys
    && (forall a :: a in db.repairs && db.repairs[a].execution !in batch ==> after.repairs[a] == db.repairs[a])
    && after.revisions == db.revisions && after.observations == db.observations && after.alerts == db.alerts
  }

  lemma RowSwept(db: Db, e: Id, max: nat)
    requires Inv(db, max) && 1 <= max && e in db.executions && db.executions[e].state.Running?
    ensures var tx := SweepOne(db, e, db.executions[e], max);
      tx.Commit? && Inv(tx.db, max) && Swept(db, tx.db, e, max) && OnlyBatch(db, tx.db, [e])
  {
    hide Inv, Replace, Terminalize, SweepOne;
    SweepOneKeeps(db, e, max);
    InvIds(db, max);
    assert ExecutionIdLaw(db, e) && ExecutionIdLaw(db, db.nextId);
    if db.executions[e].attempt < max {
      RowReplaced(db, e, max);
    } else {
      AttemptsAreRepairs(db, e, max);
      RowGivenUp(db, e, max);
    }
  }

  lemma RowReplaced(db: Db, e: Id, max: nat)
    requires Inv(db, max) && e in db.executions && db.executions[e].state.Running? && db.executions[e].attempt < max
    requires db.nextId !in db.executions && db.executions[e].monitor in db.monitors
    requires SweepOne(db, e, db.executions[e], max).Commit?
    ensures var after := SweepOne(db, e, db.executions[e], max).db;
      Swept(db, after, e, max) && OnlyBatch(db, after, [e])
  {
    hide Inv, Replace;
    var x := db.executions[e];
    var failed := Finish(db, e, Failed, x.startedAt);
    AttemptsAreRepairs(db, e, max);
    ReplaceIs(failed, e, x);
    ReplaceCounts(failed, e, x);
    assert Replaced(db, SweepOne(db, e, x, max).db, e, db.nextId);
  }

  lemma ReplaceCounts(db: Db, e: Id, x: Execution)
    ensures Replace(db, e, x).Commit? ==> Replace(db, e, x).db.nextId == db.nextId + 1
  {
    hide MoveRepair;
  }

  lemma RowGivenUp(db: Db, e: Id, max: nat)
    requires e in db.executions && db.executions[e].state.Running? && db.executions[e].attempt >= max
    requires db.executions[e].monitor in db.monitors
    requires !db.executions[e].kind.Repair? ==> forall a :: a in db.repairs ==> db.repairs[a].execution != e
    ensures var after := SweepOne(db, e, db.executions[e], max).db;
      Swept(db, after, e, max) && OnlyBatch(db, after, [e])
  {
  }

  // ---- The batch ----

  lemma OnlyBatchThen(db: Db, one: Db, after: Db, e: Id, rest: seq<Id>)
    requires OnlyBatch(db, one, [e]) && OnlyBatch(one, after, rest) && e in db.executions && e !in rest
    requires forall d :: d in rest ==> d in db.executions && one.executions[d] == db.executions[d]
    requires forall a :: a in db.repairs && db.repairs[a].execution == e ==> one.repairs[a].execution !in rest || one.repairs[a].execution == e
    ensures OnlyBatch(db, after, [e] + rest)
  {
    forall a | a in db.repairs && db.repairs[a].execution !in [e] + rest ensures after.repairs[a] == db.repairs[a] {
      assert db.repairs[a].execution !in [e] && db.repairs[a].execution !in rest;
      assert one.repairs[a] == db.repairs[a];
    }
    forall m | m in db.monitors && (forall d :: d in [e] + rest && d in db.executions ==> db.executions[d].monitor != m)
      ensures after.monitors[m] == db.monitors[m]
    {
      assert e in [e] + rest;
      assert one.monitors[m] == db.monitors[m];
      forall d | d in rest && d in one.executions ensures one.executions[d].monitor != m {
        assert d in [e] + rest;
      }
    }
  }

  /** A row swept now stays swept while the rest of the batch, about other monitors, is handled. */
  lemma SweptStays(db: Db, one: Db, after: Db, e: Id, rest: seq<Id>, max: nat)
    requires Swept(db, one, e, max) && OnlyBatch(one, after, rest) && e !in rest
    requires forall d :: d in rest ==> d in db.executions && d in one.executions && one.executions[d].monitor != db.executions[e].monitor
    ensures Swept(db, after, e, max)
  {
    assert after.executions[e] == one.executions[e];
    assert after.monitors[db.executions[e].monitor] == one.monitors[db.executions[e].monitor];
    if db.executions[e].attempt < max {
      var c :| Replaced(db, one, e, c);
      assert c !in rest;
      assert Replaced(db, after, e, c);
    }
  }

  /** A row swept later is swept from the state the sweep started with. */
  lemma SweptBefore(db: Db, one: Db, after: Db, first: Id, e: Id, max: nat)
    requires OnlyBatch(db, one, [first]) && Swept(one, after, e, max) && e != first && first in db.executions && e in db.executions
    requires db.executions[first].monitor != db.executions[e].monitor
    ensures Swept(db, after, e, max)
  {
    assert one.executions[e] == db.executions[e];
    var m := db.executions[e].monitor;
    assert m in db.monitors;
    assert one.monitors[m] == db.monitors[m];
    forall a | a in db.repairs && db.repairs[a].execution == e ensures one.repairs[a] == db.repairs[a] {
      assert e !in [first];
    }
    if db.executions[e].attempt < max {
      var c :| Replaced(one, after, e, c);
      assert Replaced(db, after, e, c);
    }
  }

  /** The rows of a batch, as the SELECT returned them and as they still are. */
  ghost predicate Running(db: Db, items: seq<(Id, Execution)>) {
    forall k :: 0 <= k < |items| ==>
      items[k].0 in db.executions && db.executions[items[k].0] == items[k].1 && items[k].1.state.Running?
  }

  function IdsOf(items: seq<(Id, Execution)>): seq<Id> {
    seq(|items|, k requires 0 <= k < |items| => items[k].0)
  }

  /** Work in flight belongs to different monitors. */
  lemma DifferentMonitors(db: Db, d: Id, e: Id, max: nat)
    requires Inv(db, max) && d in db.executions && e in db.executions && d != e
    requires InFlight(db.executions[d].state) && InFlight(db.executions[e].state)
    ensures db.executions[d].monitor != db.executions[e].monitor
  {
    hide OutboxInv, PlanInv, MirrorInv;
    assert FlightLaw(db.executions, d, e);
  }

  /** After the first row, the rest of the batch is untouched and about other monitors. */
  lemma RestRuns(db: Db, items: seq<(Id, Execution)>, one: Db, max: nat)
    requires Inv(db, max) && items != [] && Running(db, items) && Distinct(IdsOf(items))
    requires OnlyBatch(db, one, [items[0].0])
    ensures Running(one, items[1..]) && Distinct(IdsOf(items[1..])) && items[0].0 !in IdsOf(items[1..])
    ensures forall d :: d in IdsOf(items[1..]) ==>
      && d in db.executions && d in one.executions && one.executions[d] == db.executions[d]
      && one.executions[d].monitor != db.executions[items[0].0].monitor
  {
    hide Inv;
    var ids, rest, e := IdsOf(items), IdsOf(items[1..]), items[0].0;
    assert ids[0] == e && ids[1..] == rest;
    forall k | 0 <= k < |rest| ensures rest[k] == ids[k + 1] && rest[k] != e {
      assert ids[0] != ids[k + 1];
    }
    forall i, j | 0 <= i < j < |rest| ensures rest[i] != rest[j] {
      assert ids[i + 1] != ids[j + 1];
    }
    forall k | 0 <= k < |rest|
      ensures rest[k] in db.executions && rest[k] in one.executions && one.executions[rest[k]] == db.executions[rest[k]]
      ensures one.executions[rest[k]].monitor != db.executions[e].monitor
    {
      assert items[k + 1] == items[1..][k];
      assert rest[k] !in [e];
      DifferentMonitors(db, e, rest[k], max);
    }
    forall k | 0 <= k < |items[1..]| ensures one.executions[items[1..][k].0] == items[1..][k].1 && items[1..][k].1.state.Running? {
      assert items[1..][k] == items[k + 1] && rest[k] == items[k + 1].0;
    }
  }

  lemma NothingSwept(db: Db)
    ensures OnlyBatch(db, db, [])
  {
  }

  lemma {:induction false} SweepBatchEffects(db: Db, items: seq<(Id, Execution)>, max: nat)
    requires Inv(db, max) && 1 <= max && Running(db, items) && Distinct(IdsOf(items))
    ensures var tx := SweepBatch(db, items, max);
      && tx.Commit? && OnlyBatch(db, tx.db, IdsOf(items))
      && forall e :: e in IdsOf(items) ==> Swept(db, tx.db, e, max)
    decreases |items|
  {
    hide Inv, SweepOne, Swept, OnlyBatch;
    if items == [] {
      NothingSwept(db);
    } else {
      var e, rest := items[0].0, IdsOf(items[1..]);
      assert db.executions[e] == items[0].1;
      RowSwept(db, e, max);
      var one := SweepOne(db, e, items[0].1, max).db;
      RestRuns(db, items, one, max);
      SweepBatchEffects(one, items[1..], max);
      var after := SweepBatch(one, items[1..], max).db;
      FreshAttempts(db, one, e, max);
      OnlyBatchThen(db, one, after, e, rest);
      assert [e] + rest == IdsOf(items);
      SweptStays(db, one, after, e, rest, max);
      forall d | d in rest ensures Swept(db, after, d, max) {
        SweptBefore(db, one, after, e, d, max);
      }
    }
  }

  /** An attempt either stays where it is or moves to a row that did not exist. */
  lemma FreshAttempts(db: Db, one: Db, e: Id, max: nat)
    requires Swept(db, one, e, max) && OnlyBatch(db, one, [e])
    ensures forall a :: a in db.repairs && db.repairs[a].execution == e ==> one.repairs[a].execution !in db.executions || one.repairs[a].execution == e
  {
    if db.executions[e].attempt < max {
      var c :| Replaced(db, one, e, c);
    }
  }

  /** SweepStaleExecutions from a reachable database, whatever stale rows its SELECT returned. */
  lemma SweepEffectsOn(history: seq<Action>, max: nat, batch: seq<Id>, seconds: int, now: int)
    requires 1 <= max && Distinct(batch) && forall e :: e in batch ==> Stale(Reach(history, max), e, seconds, now)
    ensures var db, after := Reach(history, max), Apply(Reach(history, max), ASweep(batch, seconds, now), max);
      OnlyBatch(db, after, batch) && forall e :: e in batch ==> Swept(db, after, e, max)
  {
    hide Inv, Swept, OnlyBatch;
    Reached(history, max);
    var db := Reach(history, max);
    var items := SelectedExecutions(db, batch);
    forall k | 0 <= k < |batch| ensures items[k] == (batch[k], db.executions[batch[k]]) && items[k].1.state.Running? {
      assert batch[k] in batch;
    }
    assert IdsOf(items) == batch;
    SweepBatchEffects(db, items, max);
  }

  /** When a row is stale: running, not yet replaced, and claimed longer ago than the timeout, which is at least a second. */
  lemma StaleMeans(db: Db, e: Id, seconds: int, now: int)
    requires e in db.executions
    ensures var x := db.executions[e];
      Stale(db, e, seconds, now) <==> (x.state.Running? && x.startedAt.Some? && x.startedAt.value + seconds < now && x.startedAt.value + 1 < now
        && forall c :: c in db.executions ==> db.executions[c].recoveryOf != Some(e))
  {
  }
}

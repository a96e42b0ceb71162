/** What holds in every history of transactions, from the empty database on. */
module Histories {
  import opened Rows
  import opened Transactions
  import opened Lineage
  import opened Outbox
  import opened RepairMirror
  import opened Plans
  import opened AlertEdges
  import opened ControlPlane
  import opened Results

  /** The database after a history; the store is opened with at least one attempt. */
  function Reach(history: seq<Action>, max: nat): Db {
    Run(EMPTY_DB, history, max)
  }

  lemma StepKeeps(db: Db, a: Action, max: nat)
    requires Inv(db, max) && 1 <= max
    ensures Inv(Apply(db, a, max), max) && Kept(db, Apply(db, a, max))
  {
    hide Inv, Kept;
    match a
    case ACreate(interval, url, intent, traceparent) => CreateKeeps(db, interval, url, intent, traceparent, max);
    case AClaim(e, now) => ClaimKeeps(db, e, now, max);
    case AEnqueue(m, key, traceparent) => EnqueueKeeps(db, m, key, traceparent, max);
    case ASchedule(batch, now) => ScheduleKeeps(db, batch, now, max);
    case AResult(e, r, now) => ResultKeeps(db, e, r, now, max);
    case ASweep(batch, seconds, now) => SweepKeeps(db, batch, seconds, now, max);
    case AConfirm(m, r, condition, now) => ConfirmKeeps(db, m, r, condition, now, max);
    case AReview(m, r, accept, now) => ReviewKeeps(db, m, r, accept, now, max);
    case APatch(m, interval, condition, action, now) => PatchKeeps(db, m, interval, condition, action, now, max);
    case APublish(rows) => PublishKeeps(db, rows, max);
  }

  lemma ValidStep(db: Db, a: Action, max: nat)
    ensures 1 <= max && Inv(db, max) ==> Inv(Apply(db, a, max), max)
  {
    if 1 <= max && Inv(db, max) {
      StepKeeps(db, a, max);
    }
  }

  lemma BatchesCommit(db: Db, batch: seq<Id>, seconds: int, now: int, max: nat)
    ensures 1 <= max && Inv(db, max) ==> Sweep(db, batch, seconds, max, now).Commit? && ClaimDue(db, batch, now).Commit?
  {
    if 1 <= max && Inv(db, max) {
      SweepKeeps(db, batch, seconds, now, max);
      ScheduleKeeps(db, batch, now, max);
    }
  }

  /** The invariant holds in every reachable database. */
  lemma {:induction false} Reached(history: seq<Action>, max: nat)
    requires 1 <= max
    ensures Inv(Reach(history, max), max)
  {
    if history != [] {
      Reached(history[..|history| - 1], max);
      StepKeeps(Reach(history[..|history| - 1], max), history[|history| - 1], max);
    }
  }

  /** Nothing a prefix of a history established is undone by its continuation. */
  lemma {:induction false} KeptAlong(history: seq<Action>, i: nat, max: nat)
    requires 1 <= max && i <= |history|
    ensures Kept(Reach(history[..i], max), Reach(history, max))
  {
    if i == |history| {
      assert history[..i] == history;
      KeptReflexive(Reach(history, max));
    } else {
      var shorter := history[..|history| - 1];
      assert shorter[..i] == history[..i];
      KeptAlong(shorter, i, max);
      Reached(shorter, max);
      StepKeeps(Reach(shorter, max), history[|history| - 1], max);
      KeptTransitive(Reach(history[..i], max), Reach(shorter, max), Reach(history, max));
    }
  }

  // ---- Plan generations ----

  /** A monitor's generations are exactly 1..n, all below n active, at most the n-th awaiting judgement. */
  lemma GenerationsExact(history: seq<Action>, max: nat, m: Id, g: nat)
    requires 1 <= max
    ensures var db := Reach(history, max);
      var n := MaxGeneration(db.revisions, m);
      && (HasGeneration(db.revisions, m, g) <==> 1 <= g <= n)
      && (forall r :: r in db.revisions && db.revisions[r].monitor == m && db.revisions[r].generation < n ==> db.revisions[r].state.Activated?)
      && (forall r, s :: r in db.revisions && s in db.revisions && db.revisions[r].monitor == db.revisions[s].monitor ==>
            && (db.revisions[r].generation == db.revisions[s].generation ==> r == s)
            && (Pending(db.revisions[r].state) && Pending(db.revisions[s].state) ==> r == s))
  {
    Reached(history, max);
    var db := Reach(history, max);
    var vs := db.revisions;
    GenerationsRange(vs, m, g);
    forall r | r in vs && vs[r].monitor == m && vs[r].generation < MaxGeneration(vs, m) ensures vs[r].state.Activated? {
      GenerationsRange(vs, m, vs[r].generation + 1);
      assert NewestLaw(db.monitors, vs, r);
    }
    forall r, s | r in vs && s in vs && vs[r].monitor == vs[s].monitor
      ensures vs[r].generation == vs[s].generation ==> r == s
      ensures Pending(vs[r].state) && Pending(vs[s].state) ==> r == s
    {
      assert UniqueLaw(vs, r, s);
      if Pending(vs[r].state) {
        PendingIsNewest(db.monitors, vs, r);
      }
    }
  }

  lemma GenerationsRange(vs: Revisions, m: Id, g: nat)
    requires GenerationsInv(vs)
    ensures HasGeneration(vs, m, g) <==> 1 <= g <= MaxGeneration(vs, m)
  {
    var s := Generations(vs, m);
    if HasGeneration(vs, m, g) {
      var r :| r in vs && vs[r].monitor == m && vs[r].generation == g;
      assert GenerationLaw(vs, r);
      assert g in s;
    }
    if 1 <= g <= MaxGeneration(vs, m) {
      var r :| r in vs && vs[r].monitor == m && vs[r].generation == MaxGeneration(vs, m);
      GenerationsContiguous(vs, m, MaxGeneration(vs, m), g);
    }
  }

  /** Generation 1 was compiled; generation g + 1 was proposed by the successful repair of generation g. */
  lemma GenerationsOrigin(history: seq<Action>, max: nat, r: Id)
    requires 1 <= max && r in Reach(history, max).revisions
    ensures var db := Reach(history, max);
      var v := db.revisions[r];
      if v.generation == 1 then v.source.Compile? && Compiled(db.executions, v.monitor)
      else v.source.Repair? && v.generation > 1 && RepairedInto(db, v.monitor, v.generation - 1, r)
  {
    Reached(history, max);
    var db := Reach(history, max);
    var v := db.revisions[r];
    assert OriginLaw(db.revisions, db.executions, db.repairs, r) && GenerationLaw(db.revisions, r);
    if v.generation > 1 {
      var a :| a in db.repairs && db.repairs[a].monitor == v.monitor && db.repairs[a].failedGeneration == v.generation - 1
        && db.repairs[a].candidate == Some(r);
      assert TipLaw(db.executions, db.repairs, a);
    }
  }

  /** The attempt at generation `g` of `m` ended in a repair execution that succeeded and proposed revision `r`. */
  predicate RepairedInto(db: Db, m: Id, g: nat, r: Id) {
    exists a :: a in db.repairs && db.repairs[a].monitor == m && db.repairs[a].failedGeneration == g
      && db.repairs[a].candidate == Some(r) && db.repairs[a].execution in db.executions
      && RepairOf(db.executions[db.repairs[a].execution], m, g)
  }

  predicate RepairOf(x: Execution, m: Id, g: nat) {
    x.kind.Repair? && x.state.Succeeded? && x.monitor == m && x.generation == Some(g)
  }

  /** ConfirmMonitor's statement that rejects every other pending revision never touches a row. */
  lemma ConfirmRejectsNothing(history: seq<Action>, max: nat, r: Id)
    requires 1 <= max && r in Reach(history, max).revisions && Pending(Reach(history, max).revisions[r].state)
    ensures var vs := SetValidation(Reach(history, max), r, Activated).revisions;
      RejectOthers(vs, vs[r].monitor, r) == vs
  {
    Reached(history, max);
    NothingElsePending(Reach(history, max).monitors, Reach(history, max).revisions, r);
  }

  /** The current plan of a monitor is its newest or its second newest generation. */
  lemma CurrentIsNewest(ms: Monitors, vs: Revisions, m: Id, g: nat)
    requires GenerationsInv(vs) && NewestInv(ms, vs) && HasGeneration(vs, m, g)
    ensures m in ms && (ms[m].current.None? ==> MaxGeneration(vs, m) == 1)
    ensures ms[m].current.Some? ==>
      ms[m].current.value in vs && MaxGeneration(vs, m) - 1 <= vs[ms[m].current.value].generation
    ensures forall r :: r in vs && vs[r].monitor == m && vs[r].generation == MaxGeneration(vs, m) && vs[r].state.Activated? ==>
      ms[m].current == Some(r)
  {
    var n := MaxGeneration(vs, m);
    GenerationsRange(vs, m, g);
    GenerationsRange(vs, m, n + 1);
    var top :| top in vs && vs[top].monitor == m && vs[top].generation == n;
    assert NewestLaw(ms, vs, top);
    forall r | r in vs && vs[r].monitor == m && vs[r].generation == n && vs[r].state.Activated? ensures ms[m].current == Some(r) {
      assert NewestLaw(ms, vs, r);
    }
  }

  /** Along every history a monitor's current revision only ever moves to a strictly larger generation. */
  lemma CurrentOnlyAdvances(history: seq<Action>, i: nat, max: nat, m: Id)
    requires 1 <= max && i <= |history|
    requires m in Reach(history[..i], max).monitors && Reach(history[..i], max).monitors[m].current.Some?
    ensures var before, after := Reach(history[..i], max), Reach(history, max);
      var c := before.monitors[m].current.value;
      && c in before.revisions
      && m in after.monitors && after.monitors[m].current.Some?
      && after.monitors[m].current.value in after.revisions
      && (after.monitors[m].current.value == c
          || after.revisions[after.monitors[m].current.value].generation > before.revisions[c].generation)
  {
    Reached(history[..i], max);
    Reached(history, max);
    KeptAlong(history, i, max);
    var before, after := Reach(history[..i], max), Reach(history, max);
    var c := before.monitors[m].current.value;
    assert CurrentLaw(before.monitors, before.revisions, m);
    assert KeptRevision(before.revisions, after.revisions, c);
    var g := after.revisions[c].generation;
    assert HasGeneration(after.revisions, m, g);
    CurrentIsNewest(after.monitors, after.revisions, m, g);
    GenerationsRange(after.revisions, m, g);
    var n := MaxGeneration(after.revisions, m);
    assert g == n ==> after.monitors[m].current == Some(c);
    var d := after.monitors[m].current.value;
    assert CurrentLaw(after.monitors, after.revisions, m) && UniqueLaw(after.revisions, c, d);
  }

  /** In every reachable database the compare-and-swap of a repair in flight wins and installs its plan. */
  lemma PromotionNeverLoses(history: seq<Action>, max: nat, e: Id, r: ExecutionResult, now: int)
    requires 1 <= max && e in Reach(history, max).executions
    requires Reach(history, max).executions[e].kind.Repair? && InFlight(Reach(history, max).executions[e].state)
    requires ResultOk(Reach(history, max).executions[e], r) && r.status.StatusSucceeded? && r.autoPromote
    ensures var db := Reach(history, max);
      var x, after := db.executions[e], Apply(db, AResult(e, r, now), max);
      && CasWins(db, x)
      && x.generation == Some(MaxGeneration(db.revisions, x.monitor))
      && after.monitors[x.monitor].current == Some(db.nextId)
      && after.revisions[db.nextId] == Revision(x.monitor, x.generation.value + 1, r.plan.plan, Repair, Activated)
  {
    Reached(history, max);
    var db := Reach(history, max);
    var x := db.executions[e];
    RepairIsCurrent(db.monitors, db.revisions, db.executions, db.repairs, e);
  }

  // ---- Executions ----

  /** At most one execution per monitor is queued or running. */
  lemma OneInFlight(history: seq<Action>, max: nat, d: Id, e: Id)
    requires 1 <= max
    ensures var xs := Reach(history, max).executions;
      d in xs && e in xs && xs[d].monitor == xs[e].monitor && InFlight(xs[d].state) && InFlight(xs[e].state) ==> d == e
  {
    Reached(history, max);
    assert FlightLaw(Reach(history, max).executions, d, e);
  }

  /** Recovery lineage: every execution ends a chain as long as its attempt number, and nobody has two replacements. */
  lemma RecoveryChains(history: seq<Action>, max: nat, e: Id) returns (chain: seq<Id>)
    requires 1 <= max && e in Reach(history, max).executions
    ensures var xs := Reach(history, max).executions;
      && 0 < |chain| == xs[e].attempt <= max && chain[|chain| - 1] == e
      && (forall i :: 0 <= i < |chain| ==> chain[i] in xs && SameWork(xs[chain[i]], xs[e]) && xs[chain[i]].attempt == i + 1)
      && xs[chain[0]].recoveryOf.None?
      && (forall i :: 0 <= i < |chain| - 1 ==> !InFlight(xs[chain[i]].state) && xs[chain[i + 1]].recoveryOf == Some(chain[i]))
      && (forall c, d :: c in xs && d in xs && xs[c].recoveryOf == Some(e) && xs[d].recoveryOf == Some(e) ==> c == d)
  {
    Reached(history, max);
    var xs := Reach(history, max).executions;
    chain := ChainOf(xs, e, max);
    forall i | 0 <= i < |chain| - 1 ensures !InFlight(xs[chain[i]].state) {
      assert ParentLaw(xs, chain[i + 1]);
    }
    forall c, d | c in xs && d in xs && xs[c].recoveryOf == Some(e) && xs[d].recoveryOf == Some(e) ensures c == d {
      assert OnlyChildLaw(xs, c, d);
    }
  }

  /** The chains are disjoint: two of them share no execution, unless one is the beginning of the other. */
  lemma ChainsShareNothing(history: seq<Action>, max: nat, d: Id, e: Id) returns (dc: seq<Id>, ec: seq<Id>)
    requires 1 <= max && d in Reach(history, max).executions && e in Reach(history, max).executions
    ensures ChainTo(Reach(history, max).executions, d, dc) && ChainTo(Reach(history, max).executions, e, ec)
    ensures (exists i, j :: 0 <= i < |dc| && 0 <= j < |ec| && dc[i] == ec[j]) <==> dc <= ec || ec <= dc
  {
    hide ChainTo;
    Reached(history, max);
    dc, ec := ChainsApart(Reach(history, max).executions, d, e, max);
  }

  function RevisionsUpTo(vs: Revisions, m: Id, g: nat): set<Id> {
    set r | r in vs && vs[r].monitor == m && vs[r].generation <= g
  }

  function RevisionsOf(vs: Revisions, m: Id): set<Id> {
    set r | r in vs && vs[r].monitor == m
  }

  lemma {:induction false} CountUpTo(vs: Revisions, m: Id, g: nat)
    requires GenerationsInv(vs) && g <= MaxGeneration(vs, m)
    ensures |RevisionsUpTo(vs, m, g)| == g
  {
    if g == 0 {
      forall r | r in vs ensures vs[r].generation > 0 {
        assert GenerationLaw(vs, r);
      }
      assert RevisionsUpTo(vs, m, 0) == {};
    } else {
      CountUpTo(vs, m, g - 1);
      GenerationsRange(vs, m, g);
      var r :| r in vs && vs[r].monitor == m && vs[r].generation == g;
      forall q | q in RevisionsUpTo(vs, m, g) ensures q in RevisionsUpTo(vs, m, g - 1) || q == r {
        assert UniqueLaw(vs, q, r);
      }
      assert RevisionsUpTo(vs, m, g) == RevisionsUpTo(vs, m, g - 1) + {r};
    }
  }

  /** A monitor has as many revisions as its newest generation says. */
  lemma RevisionCount(vs: Revisions, m: Id)
    requires GenerationsInv(vs)
    ensures |RevisionsOf(vs, m)| == MaxGeneration(vs, m)
  {
    CountUpTo(vs, m, MaxGeneration(vs, m));
    forall r | r in RevisionsOf(vs, m) ensures vs[r].generation <= MaxGeneration(vs, m) {
      assert HasGeneration(vs, m, vs[r].generation);
      GenerationsRange(vs, m, vs[r].generation);
    }
    assert RevisionsOf(vs, m) == RevisionsUpTo(vs, m, MaxGeneration(vs, m));
  }

  /** Inference budget: a monitor with n revisions has at most max * (n + 1) compile and repair executions. */
  lemma InferenceBudget(history: seq<Action>, max: nat, m: Id)
    requires 1 <= max
    ensures var db := Reach(history, max);
      |Inference(db.executions, m)| <= max * (|RevisionsOf(db.revisions, m)| + 1)
  {
    Reached(history, max);
    var db := Reach(history, max);
    var xs, n := db.executions, MaxGeneration(db.revisions, m);
    forall e: Id ensures SlotNumberLaw(xs, e) {
      assert PinnedLaw(db.revisions, xs, e);
      if e in xs && xs[e].kind.Repair? {
        assert GenerationLaw(db.revisions, xs[e].revision.value);
      }
    }
    SlotsBound(xs, m, n + 1, max);
    forall e | e in Inference(xs, m) ensures e in SlotsBelow(xs, m, n + 1) {
      assert PinnedLaw(db.revisions, xs, e);
      if xs[e].kind.Repair? {
        GenerationsRange(db.revisions, m, xs[e].generation.value);
      }
    }
    assert SlotsBelow(xs, m, n + 1) == Inference(xs, m);
    RevisionCount(db.revisions, m);
  }

  /** Terminal rows are frozen for the rest of every history. */
  lemma TerminalIsFinal(history: seq<Action>, i: nat, max: nat, e: Id)
    requires 1 <= max && i <= |history|
    requires e in Reach(history[..i], max).executions && !InFlight(Reach(history[..i], max).executions[e].state)
    ensures e in Reach(history, max).executions
    ensures Reach(history, max).executions[e] == Reach(history[..i], max).executions[e]
  {
    KeptAlong(history, i, max);
    assert KeptRow(Reach(history[..i], max).executions, Reach(history, max).executions, e);
  }

  predicate AcceptsResult(db: Db, a: Action, e: Id, max: nat) {
    a.AResult? && a.execution == e && e in db.executions && InFlight(db.executions[e].state) && Attempted(db, a, max).Commit?
  }

  /** An execution accepts at most one result; every later one leaves the whole database unchanged. */
  lemma OneResult(history: seq<Action>, i: nat, j: nat, max: nat, e: Id)
    requires 1 <= max && i < j < |history|
    requires AcceptsResult(Reach(history[..i], max), history[i], e, max)
    requires history[j].AResult? && history[j].execution == e
    ensures !AcceptsResult(Reach(history[..j], max), history[j], e, max)
    ensures Reach(history[..j + 1], max) == Reach(history[..j], max)
  {
    var db := Reach(history[..i], max);
    Reached(history[..i], max);
    assert history[..i + 1][..i] == history[..i] && history[..j + 1][..j] == history[..j];
    assert ExecutionIdLaw(db, e);
    ResultFinishes(db, history[i], e, max);
    assert history[..j][..i + 1] == history[..i + 1];
    TerminalIsFinal(history[..j], i + 1, max, e);
  }

  /** Once an execution is finished, by its result or by a sweep, every later result leaves the whole database unchanged. */
  lemma LateResultIgnored(history: seq<Action>, i: nat, j: nat, max: nat, e: Id)
    requires 1 <= max && i <= j < |history| && history[j].AResult? && history[j].execution == e
    requires e in Reach(history[..i], max).executions && !InFlight(Reach(history[..i], max).executions[e].state)
    ensures Reach(history[..j + 1], max) == Reach(history[..j], max)
  {
    assert history[..j + 1][..j] == history[..j] && history[..j][..i] == history[..i];
    TerminalIsFinal(history[..j], i, max, e);
  }

  /** An execution has at most one observation, and only once it is finished. */
  lemma OneObservation(history: seq<Action>, max: nat, i: nat, j: nat)
    requires 1 <= max && i < |Reach(history, max).observations| && j < |Reach(history, max).observations|
    ensures var db := Reach(history, max);
      && db.observations[i].execution in db.executions
      && db.executions[db.observations[i].execution].state.Succeeded?
      && db.executions[db.observations[i].execution].monitor == db.observations[i].monitor
      && (db.observations[i].execution == db.observations[j].execution ==> i == j)
  {
    Reached(history, max);
    var db := Reach(history, max);
    assert SourceLaw(db.executions, db.observations, i) && ObservedOnceLaw(db.observations, i, j);
  }

  lemma ResultFinishes(db: Db, a: Action, e: Id, max: nat)
    requires IdsInv(db) && AcceptsResult(db, a, e, max)
    ensures e in Apply(db, a, max).executions && !InFlight(Apply(db, a, max).executions[e].state)
  {
    var x := db.executions[e];
    assert ExecutionIdLaw(db, e);
    var done := Finish(db, e, StateOf(a.result.status), if x.startedAt.Some? then x.startedAt else Some(a.now));
    if a.result.status.StatusSucceeded? {
      SuccessLocal(done, e, x, a.result, a.now, e);
    } else {
      FailureLocal(done, e, x, a.result, max, e);
    }
  }

  /** The statements after the first one of a result only add rows to the executions table. */
  lemma SuccessLocal(done: Db, e: Id, x: Execution, r: ExecutionResult, now: int, d: Id)
    requires d in done.executions && d < done.nextId
    ensures var after := ApplySuccess(done, e, x, r, now); d in after.executions && after.executions[d] == done.executions[d]
  {
    if !x.kind.Check? && r.plan.ValidPlan? {
      PlanLocal(done, e, x, r.plan.plan, r.autoPromote, now);
    }
  }

  lemma FailureLocal(done: Db, e: Id, x: Execution, r: ExecutionResult, max: nat, d: Id)
    requires d in done.executions && d < done.nextId
    ensures var tx := ApplyFailure(done, e, x, r, max);
      tx.Commit? ==> d in tx.db.executions && tx.db.executions[d] == done.executions[d]
  {
  }

  predicate Names(a: Action, e: Id) {
    (a.AClaim? || a.AResult?) && a.execution == e
  }

  /** Queued work waits: only a claim or a result that names it changes it, and no sweep ever expires it. */
  lemma QueuedWaits(db: Db, a: Action, e: Id, max: nat)
    requires IdsInv(db) && e in db.executions && db.executions[e].state.Queued? && !Names(a, e)
    ensures e in Apply(db, a, max).executions && Apply(db, a, max).executions[e] == db.executions[e]
  {
    hide ResultOk, ApplySuccess, ApplyFailure, SweepBatch, ScheduleBatch, StartRepair, RejectOthers, ReviewRepair;
    assert ExecutionIdLaw(db, e);
    match a
    case ASchedule(batch, now) =>
      if Distinct(batch) && forall m :: m in batch ==> Due(db, m, now) {
        ScheduleLocal(db, SelectedRevisions(db, batch), now, e);
      }
    case ASweep(batch, seconds, now) =>
      if Distinct(batch) && forall d :: d in batch ==> Stale(db, d, seconds, now) {
        var items := SelectedExecutions(db, batch);
        forall i | 0 <= i < |items| ensures items[i].0 != e {
          assert batch[i] in batch;
        }
        SweepLocal(db, items, max, e);
      }
    case AResult(d, r, now) =>
      if d in db.executions && InFlight(db.executions[d].state) && ResultOk(db.executions[d], r) {
        var x := db.executions[d];
        var done := Finish(db, d, StateOf(r.status), if x.startedAt.Some? then x.startedAt else Some(now));
        if r.status.StatusSucceeded? {
          SuccessLocal(done, d, x, r, now, e);
        } else {
          FailureLocal(done, d, x, r, max, e);
        }
      }
    case _ =>
  }

  lemma {:induction false} ScheduleLocal(db: Db, batch: seq<(Id, Id)>, now: int, e: Id)
    requires e in db.executions && e < db.nextId
    ensures var tx := ScheduleBatch(db, batch, now);
      tx.Commit? ==> e in tx.db.executions && tx.db.executions[e] == db.executions[e]
    decreases |batch|
  {
    if batch != [] && ScheduleOne(db, batch[0].0, batch[0].1, now).Commit? {
      ScheduleLocal(ScheduleOne(db, batch[0].0, batch[0].1, now).db, batch[1..], now, e);
    }
  }

  lemma {:induction false} SweepLocal(db: Db, batch: seq<(Id, Execution)>, max: nat, e: Id)
    requires e in db.executions && e < db.nextId
    requires forall i :: 0 <= i < |batch| ==> batch[i].0 != e
    ensures var tx := SweepBatch(db, batch, max);
      tx.Commit? ==> e in tx.db.executions && tx.db.executions[e] == db.executions[e]
    decreases |batch|
  {
    if batch != [] && SweepOne(db, batch[0].0, batch[0].1, max).Commit? {
      SweepLocal(SweepOne(db, batch[0].0, batch[0].1, max).db, batch[1..], max, e);
    }
  }

  /** What an execution runs never changes: its kind, its input, and the plan of the one activated revision of its monitor it is pinned to. */
  lemma PinnedInput(history: seq<Action>, i: nat, max: nat, e: Id)
    requires 1 <= max && i <= |history| && e in Reach(history[..i], max).executions
    ensures var before, after := Reach(history[..i], max), Reach(history, max);
      && e in after.executions
      && var x, y := before.executions[e], after.executions[e];
      && y.kind == x.kind && y.input == x.input && y.revision == x.revision && y.generation == x.generation
      && (x.kind.Compile? <==> x.revision.None?)
      && (x.revision.Some? ==>
            var r := x.revision.value;
            && r in before.revisions && r in after.revisions && after.revisions[r].plan == before.revisions[r].plan
            && after.revisions[r].monitor == x.monitor && after.revisions[r].state.Activated?
            && x.generation == Some(after.revisions[r].generation))
  {
    Reached(history[..i], max);
    Reached(history, max);
    KeptAlong(history, i, max);
    var before, after := Reach(history[..i], max), Reach(history, max);
    assert KeptRow(before.executions, after.executions, e);
    assert PinnedLaw(before.revisions, before.executions, e) && PinnedLaw(after.revisions, after.executions, e);
    if before.executions[e].revision.Some? {
      assert KeptRevision(before.revisions, after.revisions, before.executions[e].revision.value);
    }
  }

  /** A repair execution in flight has exactly one attempt, in the same state and without a candidate. */
  lemma AttemptMirrorsTip(history: seq<Action>, max: nat, e: Id) returns (a: Id)
    requires 1 <= max && e in Reach(history, max).executions
    requires Reach(history, max).executions[e].kind.Repair? && InFlight(Reach(history, max).executions[e].state)
    ensures var db := Reach(history, max);
      && AttemptsAt(db.repairs, e) == {a}
      && Mirrors(db.repairs[a], db.executions[e])
      && (forall b :: b in db.repairs && db.repairs[b].monitor == db.repairs[a].monitor ==>
            db.repairs[b].failedGeneration == db.repairs[a].failedGeneration ==> b == a)
  {
    Reached(history, max);
    var db := Reach(history, max);
    OneAttemptAt(db.executions, db.repairs, e);
    assert AttachedLaw(db.executions, db.repairs, e);
    a :| a in db.repairs && db.repairs[a].execution == e;
    assert TipLaw(db.executions, db.repairs, a);
    assert AttemptsAt(db.repairs, e) >= {a};
    forall b | b in AttemptsAt(db.repairs, e) ensures b == a {
      assert TipLaw(db.executions, db.repairs, b) && OneAttemptLaw(db.repairs, a, b);
    }
    forall b | b in db.repairs && db.repairs[b].monitor == db.repairs[a].monitor
      && db.repairs[b].failedGeneration == db.repairs[a].failedGeneration ensures b == a
    {
      assert OneAttemptLaw(db.repairs, a, b);
    }
  }

  /** Every attempt points at the last execution of its chain and is queued or running exactly when that one is. */
  lemma AttemptsFollowTips(history: seq<Action>, max: nat, a: Id, c: Id)
    requires 1 <= max && a in Reach(history, max).repairs
    ensures var db := Reach(history, max);
      var e := db.repairs[a].execution;
      && e in db.executions && Mirrors(db.repairs[a], db.executions[e])
      && (c in db.executions ==> db.executions[c].recoveryOf != Some(e))
  {
    Reached(history, max);
    var db := Reach(history, max);
    assert TipLaw(db.executions, db.repairs, a) && LastLaw(db.executions, db.repairs, a, c);
  }

  /** Scheduling and sweeping never abort: no batch can meet a missing revision or a missing repair attempt. */
  lemma BatchesNeverAbort(history: seq<Action>, max: nat, batch: seq<Id>, seconds: int, now: int)
    requires 1 <= max
    ensures Sweep(Reach(history, max), batch, seconds, max, now).Commit?
    ensures ClaimDue(Reach(history, max), batch, now).Commit?
  {
    Reached(history, max);
    BatchesCommit(Reach(history, max), batch, seconds, now, max);
  }

  // ---- Alerts ----

  /** The stored condition is the fold over the evidence, and the alerts are exactly its rising edges. */
  lemma AlertsAreRisingEdges(history: seq<Action>, max: nat, m: Id, i: nat)
    requires 1 <= max
    ensures var db := Reach(history, max);
      && (m in db.monitors ==> db.monitors[m].matched == Armed(db.executions, db.observations, m))
      && (i < |db.observations| ==>
            (Alert(db.observations[i].monitor, i) in db.alerts <==> Rising(db.executions, db.observations, i)))
      && (forall j, k :: 0 <= j < k < |db.alerts| ==> db.alerts[j].observation < db.alerts[k].observation)
  {
    Reached(history, max);
    var db := Reach(history, max);
    assert ArmedLaw(db.monitors, db.executions, db.observations, m);
    EdgesOrdered(db.executions, db.observations);
    if i < |db.observations| {
      EdgesExact(db.executions, db.observations, i);
    }
  }

  /** An alert is listed for an observation of its own monitor. */
  lemma {:induction false} AlertIsEdge(xs: Executions, os: Observations, k: nat)
    requires k < |Edges(xs, os)|
    ensures Rising(xs, os, Edges(xs, os)[k].observation)
    ensures os[Edges(xs, os)[k].observation].monitor == Edges(xs, os)[k].monitor
  {
    var last := |os| - 1;
    var shorter := Edges(xs, os[..last]);
    if k < |shorter| {
      AlertIsEdge(xs, os[..last], k);
      var i := shorter[k].observation;
      assert os[..last][..i] == os[..i] && os[..last][..i + 1] == os[..i + 1];
    }
  }

  /** Between two alerts of a monitor lies a verified non-match of a check of that monitor. */
  lemma NonMatchBetweenAlerts(history: seq<Action>, max: nat, j: nat, k: nat) returns (n: nat)
    requires 1 <= max && j < k < |Reach(history, max).alerts|
    requires Reach(history, max).alerts[j].monitor == Reach(history, max).alerts[k].monitor
    ensures var db := Reach(history, max);
      && db.alerts[j].observation < n < db.alerts[k].observation < |db.observations|
      && db.observations[n].monitor == db.alerts[j].monitor
      && Evidence(db.executions, db.observations[n]) && !db.observations[n].matched
  {
    Reached(history, max);
    var db := Reach(history, max);
    AlertIsEdge(db.executions, db.observations, j);
    AlertIsEdge(db.executions, db.observations, k);
    EdgesOrdered(db.executions, db.observations);
    n := FallsOnNonMatch(db.executions, db.observations, db.alerts[j].monitor, db.alerts[j].observation + 1, db.alerts[k].observation);
  }

  /** Every alert rests on two verified matches by two checks of its monitor: an ordinary one, then its confirmation. */
  lemma AlertsAreConfirmed(history: seq<Action>, max: nat, k: nat)
    requires 1 <= max && k < |Reach(history, max).alerts|
    ensures var db := Reach(history, max);
      var i := db.alerts[k].observation;
      && i < |db.observations| && Confirms(db.executions, db.observations[i])
      && var t := db.executions[db.observations[i].execution].input.trigger;
         && t < i
         && db.observations[i].monitor == db.observations[t].monitor == db.alerts[k].monitor
         && Evidence(db.executions, db.observations[i]) && db.observations[i].matched
         && Evidence(db.executions, db.observations[t]) && db.observations[t].matched
         && !Confirms(db.executions, db.observations[t])
         && db.observations[i].execution != db.observations[t].execution
  {
    Reached(history, max);
    var db := Reach(history, max);
    AlertIsEdge(db.executions, db.observations, k);
    var i := db.alerts[k].observation;
    RisingConfirms(db.executions, db.observations, i);
    assert OrderLaw(db.executions, db.observations, i) && SourceLaw(db.executions, db.observations, i);
    assert TriggerLaw(db.executions, db.observations, db.observations[i].execution);
  }

  lemma RevisionHasMonitor(db: Db, r: Id, max: nat)
    requires Inv(db, max) && r in db.revisions
    ensures db.revisions[r].monitor in db.monitors
  {
    assert NewestLaw(db.monitors, db.revisions, r);
  }

  lemma PlanAlerts(db: Db, e: Id, x: Execution, plan: Plan, autoPromote: bool, now: int)
    ensures ApplyPlan(db, e, x, plan, autoPromote, now).alerts == db.alerts
  {
    hide MaxGeneration, SetRepairCandidate, SetRepairState;
  }

  lemma FailureAlerts(db: Db, e: Id, x: Execution, r: ExecutionResult, max: nat)
    ensures ApplyFailure(db, e, x, r, max).Commit? ==> ApplyFailure(db, e, x, r, max).db.alerts == db.alerts
  {
    hide ShouldRetry, RepairExists, SetRepairState, MoveRepair, AttemptsAt;
  }

  /** Compile and repair results never create an alert. */
  lemma OnlyChecksAlert(db: Db, e: Id, r: ExecutionResult, now: int, max: nat)
    requires e in db.executions && !db.executions[e].kind.Check?
    ensures Apply(db, AResult(e, r, now), max).alerts == db.alerts
  {
    hide ApplyPlan, ApplyFailure, ResultOk;
    var x := db.executions[e];
    if InFlight(x.state) && ResultOk(x, r) {
      var done := Finish(db, e, StateOf(r.status), if x.startedAt.Some? then x.startedAt else Some(now));
      FailureAlerts(done, e, x, r, max);
      if r.plan.ValidPlan? {
        PlanAlerts(done, e, x, r.plan.plan, r.autoPromote, now);
      }
    }
  }
}

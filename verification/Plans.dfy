/** Plan revisions: contiguous generations, one pending at most, and pinned executions. */
module Plans {
  import opened Rows
  import opened Transactions
  import opened Lineage
  import opened RepairMirror

  type Monitors = map<Id, Monitor>
  type Revisions = map<Id, Revision>

  predicate HasGeneration(vs: Revisions, m: Id, g: nat) {
    exists r :: r in vs && vs[r].monitor == m && vs[r].generation == g
  }

  /** The attempt that repaired generation `g` of `m` proposed revision `r`. */
  predicate Proposed(rs: Repairs, m: Id, g: nat, r: Id) {
    exists a :: a in rs && rs[a].monitor == m && rs[a].failedGeneration == g && rs[a].candidate == Some(r)
  }

  predicate Compiled(xs: Executions, m: Id) {
    exists e :: e in xs && xs[e].monitor == m && xs[e].kind.Compile? && xs[e].state.Succeeded?
  }

  predicate CurrentLaw(ms: Monitors, vs: Revisions, m: Id) {
    m in ms && ms[m].current.Some? ==>
      ms[m].current.value in vs && vs[ms[m].current.value].monitor == m && vs[ms[m].current.value].state.Activated?
  }

  /** Generations count up from 1 without gaps, and only the first comes from compilation. */
  predicate GenerationLaw(vs: Revisions, r: Id) {
    r in vs ==>
      && vs[r].generation >= 1
      && vs[r].source == (if vs[r].generation == 1 then Compile else Repair)
      && (vs[r].generation > 1 ==> HasGeneration(vs, vs[r].monitor, vs[r].generation - 1))
  }

  predicate UniqueLaw(vs: Revisions, r: Id, s: Id) {
    r in vs && s in vs && vs[r].monitor == vs[s].monitor && vs[r].generation == vs[s].generation ==> r == s
  }

  /** Where `current` stands relative to a revision that nothing has superseded. */
  predicate Tracks(current: Option<Id>, vs: Revisions, r: Id)
    requires r in vs
  {
    if vs[r].state.Activated? then current == Some(r)
    else if vs[r].generation == 1 then current.None?
    else current.Some? && current.value in vs && vs[current.value].generation == vs[r].generation - 1
  }

  predicate NewestLaw(ms: Monitors, vs: Revisions, r: Id) {
    r in vs ==>
      && vs[r].monitor in ms
      && (if HasGeneration(vs, vs[r].monitor, vs[r].generation + 1)
          then vs[r].state.Activated?
          else Tracks(ms[vs[r].monitor].current, vs, r))
  }

  predicate OriginLaw(vs: Revisions, xs: Executions, rs: Repairs, r: Id) {
    r in vs ==>
      if vs[r].generation <= 1 then Compiled(xs, vs[r].monitor)
      else Proposed(rs, vs[r].monitor, vs[r].generation - 1, r)
  }

  predicate CandidateLaw(vs: Revisions, rs: Repairs, a: Id) {
    a in rs && rs[a].candidate.Some? ==>
      && rs[a].candidate.value in vs
      && vs[rs[a].candidate.value].monitor == rs[a].monitor
      && vs[rs[a].candidate.value].generation == rs[a].failedGeneration + 1
  }

  /** Checks and repairs run the plan of an activated revision of their own monitor. */
  predicate Pinned(vs: Revisions, x: Execution) {
    if x.kind.Compile? then x.revision.None? && x.generation.None?
    else
      && x.revision.Some? && x.revision.value in vs
      && vs[x.revision.value].monitor == x.monitor
      && vs[x.revision.value].state.Activated?
      && x.generation == Some(vs[x.revision.value].generation)
  }

  predicate PinnedLaw(vs: Revisions, xs: Executions, e: Id) {
    e in xs ==> Pinned(vs, xs[e])
  }

  /** Inference in flight always works on the newest generation. */
  predicate Fresh(vs: Revisions, x: Execution) {
    match x.kind
    case Compile => !HasGeneration(vs, x.monitor, 1)
    case Repair => x.generation.Some? && !HasGeneration(vs, x.monitor, x.generation.value + 1)
    case Check => true
  }

  predicate FreshLaw(vs: Revisions, xs: Executions, e: Id) {
    e in xs && InFlight(xs[e].state) ==> Fresh(vs, xs[e])
  }

  ghost predicate GenerationsInv(vs: Revisions) {
    && (forall r :: GenerationLaw(vs, r))
    && (forall r, s :: UniqueLaw(vs, r, s))
  }

  ghost predicate NewestInv(ms: Monitors, vs: Revisions) {
    forall r :: NewestLaw(ms, vs, r)
  }

  ghost predicate PlanInv(ms: Monitors, vs: Revisions, xs: Executions, rs: Repairs) {
    && GenerationsInv(vs)
    && (forall m :: CurrentLaw(ms, vs, m))
    && NewestInv(ms, vs)
    && (forall r :: OriginLaw(vs, xs, rs, r))
    && (forall a :: CandidateLaw(vs, rs, a))
    && (forall e :: PinnedLaw(vs, xs, e))
    && (forall e :: FreshLaw(vs, xs, e))
  }

  // ---- Consequences ----

  /** Below every generation lie all smaller ones. */
  lemma {:induction false} GenerationsContiguous(vs: Revisions, m: Id, g: nat, h: nat)
    requires GenerationsInv(vs) && HasGeneration(vs, m, g) && 1 <= h <= g
    ensures HasGeneration(vs, m, h)
    decreases g
  {
    var r :| r in vs && vs[r].monitor == m && vs[r].generation == g;
    if h < g {
      assert GenerationLaw(vs, r);
      GenerationsContiguous(vs, m, g - 1, h);
    }
  }

  /** A generation without successor is the maximum. */
  lemma NewestIsMax(vs: Revisions, m: Id, g: nat)
    requires GenerationsInv(vs) && !HasGeneration(vs, m, g + 1)
    requires g == 0 || HasGeneration(vs, m, g)
    ensures MaxGeneration(vs, m) == g
  {
    var s := Generations(vs, m);
    forall h | h in s ensures h >= 1 {
      var r :| r in vs && vs[r].monitor == m && vs[r].generation == h;
      assert GenerationLaw(vs, r);
    }
    forall h | h in s ensures h <= g {
      var r :| r in vs && vs[r].monitor == m && vs[r].generation == h;
      if h > g {
        GenerationsContiguous(vs, m, h, g + 1);
      }
    }
    if g == 0 {
      assert s == {};
    } else {
      assert g in s;
    }
  }

  /** A revision awaiting judgement is the newest, and the only one awaiting it. */
  lemma PendingIsNewest(ms: Monitors, vs: Revisions, r: Id)
    requires GenerationsInv(vs) && NewestInv(ms, vs)
    requires r in vs && !vs[r].state.Activated?
    ensures !HasGeneration(vs, vs[r].monitor, vs[r].generation + 1)
    ensures forall q :: q in vs && vs[q].monitor == vs[r].monitor ==> vs[q].generation <= vs[r].generation
    ensures forall q :: q in vs && vs[q].monitor == vs[r].monitor && q != r ==> vs[q].state.Activated?
  {
    assert NewestLaw(ms, vs, r);
    forall q | q in vs && vs[q].monitor == vs[r].monitor
      ensures vs[q].generation <= vs[r].generation && (q != r ==> vs[q].state.Activated?)
    {
      if vs[q].generation > vs[r].generation {
        GenerationsContiguous(vs, vs[r].monitor, vs[q].generation, vs[r].generation + 1);
      }
      assert UniqueLaw(vs, q, r) && NewestLaw(ms, vs, q) && GenerationLaw(vs, q);
      if q != r {
        GenerationsContiguous(vs, vs[r].monitor, vs[r].generation, vs[q].generation + 1);
      }
    }
  }

  /** A repair in flight repairs the plan that is current, so its compare-and-swap wins. */
  lemma RepairIsCurrent(ms: Monitors, vs: Revisions, xs: Executions, rs: Repairs, e: Id)
    requires PlanInv(ms, vs, xs, rs)
    requires e in xs && xs[e].kind.Repair? && InFlight(xs[e].state)
    ensures xs[e].monitor in ms && xs[e].revision.Some? && ms[xs[e].monitor].current == xs[e].revision
    ensures xs[e].generation.Some? && MaxGeneration(vs, xs[e].monitor) == xs[e].generation.value
  {
    assert PinnedLaw(vs, xs, e) && FreshLaw(vs, xs, e);
    var r := xs[e].revision.value;
    assert NewestLaw(ms, vs, r);
    NewestIsMax(vs, xs[e].monitor, vs[r].generation);
  }

  /** A check whose generation has no repair attempt yet runs the current, newest plan. */
  lemma UnrepairedIsNewest(ms: Monitors, vs: Revisions, xs: Executions, rs: Repairs, e: Id)
    requires PlanInv(ms, vs, xs, rs)
    requires e in xs && xs[e].kind.Check? && xs[e].generation.Some? && !RepairExists(rs, xs[e].monitor, xs[e].generation.value)
    ensures !HasGeneration(vs, xs[e].monitor, xs[e].generation.value + 1)
  {
    var m, g := xs[e].monitor, xs[e].generation.value;
    forall r ensures !(r in vs && vs[r].monitor == m && vs[r].generation == g + 1) {
      assert PinnedLaw(vs, xs, e) && GenerationLaw(vs, xs[e].revision.value);
      assert OriginLaw(vs, xs, rs, r);
    }
  }

  // ---- Preservation ----

  lemma ExecutionsKeepPlans(ms: Monitors, vs: Revisions, xs: Executions, rs: Repairs, ys: Executions)
    requires PlanInv(ms, vs, xs, rs) && Extends(xs, ys)
    requires forall e :: e in ys && e !in xs ==> Pinned(vs, ys[e]) && Fresh(vs, ys[e])
    ensures PlanInv(ms, vs, ys, rs)
  {
    forall e ensures PinnedLaw(vs, ys, e) && FreshLaw(vs, ys, e) {
      assert KeptRow(xs, ys, e) && PinnedLaw(vs, xs, e) && FreshLaw(vs, xs, e);
    }
    forall r ensures OriginLaw(vs, ys, rs, r) {
      assert OriginLaw(vs, xs, rs, r);
      if r in vs && vs[r].generation <= 1 {
        var e :| e in xs && xs[e].monitor == vs[r].monitor && xs[e].kind.Compile? && xs[e].state.Succeeded?;
        assert KeptRow(xs, ys, e);
      }
    }
  }

  /** Rows may be added for new monitors, and columns other than `current` may change. */
  lemma MonitorsKeepPlans(ms: Monitors, ns: Monitors, vs: Revisions, xs: Executions, rs: Repairs)
    requires PlanInv(ms, vs, xs, rs)
    requires forall m :: m in ms ==> m in ns && ns[m].current == ms[m].current
    requires forall m :: m in ns && m !in ms ==> ns[m].current.None?
    ensures PlanInv(ns, vs, xs, rs)
  {
    forall m ensures CurrentLaw(ns, vs, m) {
      assert CurrentLaw(ms, vs, m);
    }
    forall r ensures NewestLaw(ns, vs, r) {
      assert NewestLaw(ms, vs, r);
    }
  }

  /** Attempts may be added without a candidate, and columns other than `candidate` may change. */
  lemma RepairsKeepPlans(ms: Monitors, vs: Revisions, xs: Executions, rs: Repairs, ss: Repairs)
    requires PlanInv(ms, vs, xs, rs)
    requires forall a :: a in rs ==>
      a in ss && ss[a].monitor == rs[a].monitor && ss[a].failedGeneration == rs[a].failedGeneration && ss[a].candidate == rs[a].candidate
    requires forall a :: a in ss && a !in rs ==> ss[a].candidate.None?
    ensures PlanInv(ms, vs, xs, ss)
  {
    forall a ensures CandidateLaw(vs, ss, a) {
      assert CandidateLaw(vs, rs, a);
    }
    forall r ensures OriginLaw(vs, xs, ss, r) {
      assert OriginLaw(vs, xs, rs, r);
      if r in vs && vs[r].generation > 1 {
        var a :| a in rs && rs[a].monitor == vs[r].monitor && rs[a].failedGeneration == vs[r].generation - 1 && rs[a].candidate == Some(r);
        assert a in ss && ss[a].candidate == Some(r);
      }
    }
  }

  lemma GenerationsInserted(vs: Revisions, r: Id, row: Revision, m: Id, g: nat)
    requires r !in vs
    ensures HasGeneration(vs[r := row], m, g) <==> HasGeneration(vs, m, g) || (m == row.monitor && g == row.generation)
  {
    var ws := vs[r := row];
    assert ws[r] == row;
    if HasGeneration(vs, m, g) {
      var q :| q in vs && vs[q].monitor == m && vs[q].generation == g;
      assert q in ws && ws[q] == vs[q];
    }
  }

  /** A proposal: the next generation of an idle monitor, whose newest plan is active and current. */
  ghost predicate Proposal(ms: Monitors, vs: Revisions, xs: Executions, r: Id, row: Revision) {
    var m, g := row.monitor, row.generation;
    && r !in vs && m in ms && !row.state.Activated? && !Busy(xs, m) && g >= 1
    && row.source == (if g == 1 then Compile else Repair)
    && !HasGeneration(vs, m, g)
    && (if g == 1 then ms[m].current.None? && Compiled(xs, m)
        else ms[m].current.Some? && ms[m].current.value in vs && vs[ms[m].current.value].monitor == m
             && vs[ms[m].current.value].state.Activated? && vs[ms[m].current.value].generation == g - 1)
  }

  lemma ProposalKeepsGenerations(ms: Monitors, vs: Revisions, xs: Executions, r: Id, row: Revision)
    requires GenerationsInv(vs) && NewestInv(ms, vs) && Proposal(ms, vs, xs, r, row)
    ensures GenerationsInv(vs[r := row])
    ensures NewestInv(ms, vs[r := row])
  {
    var ws, m, g := vs[r := row], row.monitor, row.generation;
    forall q: Id ensures GenerationLaw(ws, q) {
      assert GenerationLaw(vs, q);
      if q in ws && ws[q].generation > 1 {
        GenerationsInserted(vs, r, row, ws[q].monitor, ws[q].generation - 1);
        if q == r {
          assert HasGeneration(vs, m, g - 1);
        }
      }
    }
    forall q: Id, s: Id ensures UniqueLaw(ws, q, s) {
      assert UniqueLaw(vs, q, s);
    }
    forall q: Id ensures NewestLaw(ms, ws, q) {
      assert NewestLaw(ms, vs, q) && GenerationLaw(vs, q);
      if q == r {
        GenerationsInserted(vs, r, row, m, g + 1);
        if HasGeneration(vs, m, g + 1) {
          GenerationsContiguous(vs, m, g + 1, g);
        }
      } else if q in vs {
        GenerationsInserted(vs, r, row, vs[q].monitor, vs[q].generation + 1);
        if vs[q].monitor == m && vs[q].generation + 1 == g {
          assert UniqueLaw(vs, q, ms[m].current.value);
        }
      }
    }
  }

  /** A proposal keeps the plan laws once the attempt that made it records it. */
  lemma ProposalKeepsPlans(ms: Monitors, vs: Revisions, xs: Executions, rs: Repairs, r: Id, row: Revision, ss: Repairs)
    requires PlanInv(ms, vs, xs, rs) && Proposal(ms, vs, xs, r, row)
    requires forall a :: a in rs ==>
      && a in ss && ss[a].monitor == rs[a].monitor && ss[a].failedGeneration == rs[a].failedGeneration
      && (ss[a].candidate == rs[a].candidate
          || (rs[a].candidate.None? && ss[a].candidate == Some(r) && rs[a].monitor == row.monitor && rs[a].failedGeneration + 1 == row.generation))
    requires ss.Keys == rs.Keys
    requires row.generation > 1 ==> Proposed(ss, row.monitor, row.generation - 1, r)
    ensures PlanInv(ms, vs[r := row], xs, ss)
  {
    var ws, m := vs[r := row], row.monitor;
    ProposalKeepsGenerations(ms, vs, xs, r, row);
    forall k: Id ensures CurrentLaw(ms, ws, k) {
      assert CurrentLaw(ms, vs, k);
    }
    forall a: Id ensures CandidateLaw(ws, ss, a) {
      assert CandidateLaw(vs, rs, a);
    }
    forall q: Id ensures OriginLaw(ws, xs, ss, q) {
      assert OriginLaw(vs, xs, rs, q);
      if q in vs && vs[q].generation > 1 {
        var a :| a in rs && rs[a].monitor == vs[q].monitor && rs[a].failedGeneration == vs[q].generation - 1 && rs[a].candidate == Some(q);
        assert a in ss && ss[a].candidate == Some(q);
      }
    }
    forall e: Id ensures PinnedLaw(ws, xs, e) {
      assert PinnedLaw(vs, xs, e);
    }
    forall e: Id ensures FreshLaw(ws, xs, e) {
      assert FreshLaw(vs, xs, e);
      if e in xs && InFlight(xs[e].state) {
        assert xs[e].monitor != m;
        GenerationsInserted(vs, r, row, xs[e].monitor, 1);
        GenerationsInserted(vs, r, row, xs[e].monitor, if xs[e].generation.Some? then xs[e].generation.value + 1 else 1);
      }
    }
  }

  /** Judging a revision changes nobody's generation. */
  lemma GenerationsRestated(vs: Revisions, r: Id, state: ValidationState, m: Id, g: nat)
    requires r in vs
    ensures HasGeneration(vs[r := vs[r].(state := state)], m, g) <==> HasGeneration(vs, m, g)
  {
    var ws := vs[r := vs[r].(state := state)];
    if HasGeneration(vs, m, g) {
      var q :| q in vs && vs[q].monitor == m && vs[q].generation == g;
      assert q in ws && ws[q].monitor == m && ws[q].generation == g;
    }
    if HasGeneration(ws, m, g) {
      var q :| q in ws && ws[q].monitor == m && ws[q].generation == g;
      assert q in vs && vs[q].monitor == m && vs[q].generation == g;
    }
  }

  /** Accepting a pending revision makes it current; rejecting it leaves `current` alone. */
  lemma JudgementKeepsPlans(ms: Monitors, vs: Revisions, xs: Executions, rs: Repairs, r: Id, state: ValidationState, ns: Monitors)
    requires PlanInv(ms, vs, xs, rs)
    requires r in vs && Pending(vs[r].state) && (state.Activated? || state.Rejected?)
    requires ns.Keys == ms.Keys
    requires forall m :: m in ms ==>
      ns[m].current == if state.Activated? && m == vs[r].monitor then Some(r) else ms[m].current
    ensures PlanInv(ns, vs[r := vs[r].(state := state)], xs, rs)
  {
    var ws, m := vs[r := vs[r].(state := state)], vs[r].monitor;
    PendingIsNewest(ms, vs, r);
    forall q: Id ensures GenerationLaw(ws, q) {
      assert GenerationLaw(vs, q);
      if q in vs && vs[q].generation > 1 {
        GenerationsRestated(vs, r, state, vs[q].monitor, vs[q].generation - 1);
      }
    }
    forall q: Id, s: Id ensures UniqueLaw(ws, q, s) {
      assert UniqueLaw(vs, q, s);
    }
    forall k: Id ensures CurrentLaw(ns, ws, k) {
      assert CurrentLaw(ms, vs, k) && NewestLaw(ms, vs, r);
    }
    forall q: Id ensures NewestLaw(ns, ws, q) {
      assert NewestLaw(ms, vs, q);
      if q in vs {
        GenerationsRestated(vs, r, state, vs[q].monitor, vs[q].generation + 1);
        if vs[q].monitor == m && q != r {
          assert UniqueLaw(vs, q, r) && GenerationLaw(vs, q);
          GenerationsContiguous(vs, m, vs[r].generation, vs[q].generation + 1);
        }
      }
    }
    forall q: Id ensures OriginLaw(ws, xs, rs, q) {
      assert OriginLaw(vs, xs, rs, q);
    }
    forall a: Id ensures CandidateLaw(ws, rs, a) {
      assert CandidateLaw(vs, rs, a);
    }
    forall e: Id ensures PinnedLaw(ws, xs, e) {
      assert PinnedLaw(vs, xs, e);
    }
    forall e: Id ensures FreshLaw(ws, xs, e) {
      assert FreshLaw(vs, xs, e);
      if e in xs {
        GenerationsRestated(vs, r, state, xs[e].monitor, 1);
        GenerationsRestated(vs, r, state, xs[e].monitor, if xs[e].generation.Some? then xs[e].generation.value + 1 else 1);
      }
    }
  }

  /** The "reject every other pending revision" statement finds nothing to reject. */
  lemma NothingElsePending(ms: Monitors, vs: Revisions, r: Id)
    requires GenerationsInv(vs) && NewestInv(ms, vs)
    requires r in vs && Pending(vs[r].state)
    ensures RejectOthers(vs[r := vs[r].(state := Activated)], vs[r].monitor, r) == vs[r := vs[r].(state := Activated)]
  {
    PendingIsNewest(ms, vs, r);
  }
}

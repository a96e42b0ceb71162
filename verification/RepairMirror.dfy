/** A repair attempt mirrors the tip of its chain of repair executions. */
module RepairMirror {
  import opened Rows
  import opened Transactions
  import opened Lineage

  type Repairs = map<Id, RepairAttempt>

  predicate Mirrors(r: RepairAttempt, x: Execution) {
    && x.kind.Repair? && x.monitor == r.monitor && x.generation == Some(r.failedGeneration)
    && (r.state.RepairQueued? <==> x.state.Queued?)
    && (r.state.RepairRunning? <==> x.state.Running?)
    && (r.candidate.Some? ==> x.state.Succeeded?)
  }

  predicate TipLaw(xs: Executions, rs: Repairs, a: Id) {
    a in rs ==> rs[a].execution in xs && Mirrors(rs[a], xs[rs[a].execution])
  }

  predicate OneAttemptLaw(rs: Repairs, a: Id, b: Id) {
    a in rs && b in rs && rs[a].monitor == rs[b].monitor && rs[a].failedGeneration == rs[b].failedGeneration ==> a == b
  }

  predicate RegisteredLaw(xs: Executions, rs: Repairs, e: Id) {
    e in xs && xs[e].kind.Repair? ==> xs[e].generation.Some? && RepairExists(rs, xs[e].monitor, xs[e].generation.value)
  }

  predicate Attached(rs: Repairs, e: Id) {
    exists a :: a in rs && rs[a].execution == e
  }

  predicate AttachedLaw(xs: Executions, rs: Repairs, e: Id) {
    e in xs && xs[e].kind.Repair? && InFlight(xs[e].state) ==> Attached(rs, e)
  }

  /** An attempt points at the end of its chain. */
  predicate LastLaw(xs: Executions, rs: Repairs, a: Id, c: Id) {
    a in rs && c in xs ==> xs[c].recoveryOf != Some(rs[a].execution)
  }

  ghost predicate MirrorInv(xs: Executions, rs: Repairs) {
    && (forall a :: TipLaw(xs, rs, a))
    && (forall a, c :: LastLaw(xs, rs, a, c))
    && (forall a, b :: OneAttemptLaw(rs, a, b))
    && (forall e :: RegisteredLaw(xs, rs, e))
    && (forall e :: AttachedLaw(xs, rs, e))
  }

  /** Same rows for the same monitors and generations. */
  ghost predicate SameAttempts(rs: Repairs, ss: Repairs) {
    rs.Keys == ss.Keys
    && forall a :: a in rs ==> rs[a].monitor == ss[a].monitor && rs[a].failedGeneration == ss[a].failedGeneration
  }

  lemma SameAttemptsRegister(rs: Repairs, ss: Repairs, m: Id, g: nat)
    requires SameAttempts(rs, ss) && RepairExists(rs, m, g)
    ensures RepairExists(ss, m, g)
  {
    var a :| a in rs && rs[a].monitor == m && rs[a].failedGeneration == g;
    assert a in ss && ss[a].monitor == m && ss[a].failedGeneration == g;
  }

  /** Work that is not a repair leaves the mirror alone. */
  lemma OtherProgressKeepsMirror(xs: Executions, rs: Repairs, e: Id, y: Execution)
    requires MirrorInv(xs, rs)
    requires e in xs && Progressed(xs[e], y) && (!y.kind.Repair? || y.state == xs[e].state)
    ensures MirrorInv(xs[e := y], rs)
  {
    var ys := xs[e := y];
    forall a: Id ensures TipLaw(ys, rs, a) {
      assert TipLaw(xs, rs, a);
    }
    forall a: Id, c: Id ensures LastLaw(ys, rs, a, c) {
      assert TipLaw(xs, rs, a) && LastLaw(xs, rs, a, c);
    }
    forall d: Id ensures RegisteredLaw(ys, rs, d) && AttachedLaw(ys, rs, d) {
      assert RegisteredLaw(xs, rs, d) && AttachedLaw(xs, rs, d);
    }
  }

  lemma OtherInsertKeepsMirror(xs: Executions, rs: Repairs, e: Id, x: Execution)
    requires MirrorInv(xs, rs)
    requires e !in xs && !x.kind.Repair?
    requires x.recoveryOf.Some? ==> x.recoveryOf.value in xs && !xs[x.recoveryOf.value].kind.Repair?
    ensures MirrorInv(xs[e := x], rs)
  {
    var ys := xs[e := x];
    forall a: Id ensures TipLaw(ys, rs, a) {
      assert TipLaw(xs, rs, a);
    }
    forall a: Id, c: Id ensures LastLaw(ys, rs, a, c) {
      assert TipLaw(xs, rs, a) && LastLaw(xs, rs, a, c);
    }
    forall d: Id ensures RegisteredLaw(ys, rs, d) && AttachedLaw(ys, rs, d) {
      assert RegisteredLaw(xs, rs, d) && AttachedLaw(xs, rs, d);
    }
  }

  /** A claim or a final result moves the repair execution and its attempt together. */
  lemma TogetherKeepsMirror(xs: Executions, rs: Repairs, e: Id, y: Execution, ss: Repairs)
    requires MirrorInv(xs, rs)
    requires e in xs && xs[e].kind.Repair? && InFlight(xs[e].state) && Progressed(xs[e], y)
    requires SameAttempts(rs, ss)
    requires forall a :: a in rs ==> ss[a].execution == rs[a].execution
    requires forall a :: a in rs && rs[a].execution == e ==> Mirrors(ss[a], y)
    requires forall a :: a in rs && rs[a].execution != e ==> ss[a] == rs[a]
    ensures MirrorInv(xs[e := y], ss)
  {
    var ys := xs[e := y];
    forall a: Id ensures TipLaw(ys, ss, a) {
      assert TipLaw(xs, rs, a);
    }
    forall a: Id, b: Id ensures LastLaw(ys, ss, a, b) {
      assert TipLaw(xs, rs, a) && LastLaw(xs, rs, a, b);
    }
    forall a, b ensures OneAttemptLaw(ss, a, b) {
      assert OneAttemptLaw(rs, a, b);
    }
    forall d: Id ensures RegisteredLaw(ys, ss, d) {
      assert RegisteredLaw(xs, rs, d);
      if d in ys && ys[d].kind.Repair? {
        SameAttemptsRegister(rs, ss, ys[d].monitor, ys[d].generation.value);
      }
    }
    forall d: Id ensures AttachedLaw(ys, ss, d) {
      assert AttachedLaw(xs, rs, d);
      if d in ys && ys[d].kind.Repair? && InFlight(ys[d].state) {
        var a :| a in rs && rs[a].execution == d;
        assert a in ss && ss[a].execution == d;
      }
    }
  }

  /** The first repair of a generation: one execution and one attempt. */
  lemma RootKeepsMirror(xs: Executions, rs: Repairs, e: Id, x: Execution, a: Id, r: RepairAttempt)
    requires MirrorInv(xs, rs)
    requires e !in xs && a !in rs && r.execution == e && Mirrors(r, x)
    requires !RepairExists(rs, r.monitor, r.failedGeneration)
    requires x.recoveryOf.None? && forall d :: d in xs ==> xs[d].recoveryOf != Some(e)
    ensures MirrorInv(xs[e := x], rs[a := r])
  {
    var ys, ss := xs[e := x], rs[a := r];
    forall b: Id ensures TipLaw(ys, ss, b) {
      assert TipLaw(xs, rs, b);
    }
    forall b: Id, d: Id ensures LastLaw(ys, ss, b, d) {
      assert TipLaw(xs, rs, b) && LastLaw(xs, rs, b, d);
    }
    forall b, c ensures OneAttemptLaw(ss, b, c) {
      assert OneAttemptLaw(rs, b, c);
    }
    assert ss[a].execution == e;
    forall d: Id ensures RegisteredLaw(ys, ss, d) && AttachedLaw(ys, ss, d) {
      assert RegisteredLaw(xs, rs, d) && AttachedLaw(xs, rs, d);
      if d in xs && xs[d].kind.Repair? {
        var b :| b in rs && rs[b].monitor == xs[d].monitor && rs[b].failedGeneration == xs[d].generation.value;
        assert b in ss && ss[b] == rs[b];
        if InFlight(xs[d].state) {
          var c :| c in rs && rs[c].execution == d;
          assert c in ss && ss[c] == rs[c];
        }
      }
    }
  }

  /** Exactly one attempt points at a repair execution in flight. */
  lemma OneAttemptAt(xs: Executions, rs: Repairs, e: Id)
    requires MirrorInv(xs, rs)
    requires e in xs && xs[e].kind.Repair? && InFlight(xs[e].state)
    ensures |AttemptsAt(rs, e)| == 1
  {
    assert AttachedLaw(xs, rs, e);
    var a :| a in rs && rs[a].execution == e;
    forall b | b in AttemptsAt(rs, e) ensures b == a {
      assert TipLaw(xs, rs, a) && TipLaw(xs, rs, b) && OneAttemptLaw(rs, a, b);
    }
    assert AttemptsAt(rs, e) == {a};
  }

  /** A replacement takes the attempt over from the finished execution `e`. */
  lemma MoveKeepsMirror(xs: Executions, rs: Repairs, e: Id, y: Execution, c: Id)
    requires MirrorInv(xs, rs)
    requires e in xs && xs[e].kind.Repair? && InFlight(xs[e].state) && Progressed(xs[e], y) && !InFlight(y.state)
    requires c !in xs && forall d :: d in xs ==> xs[d].recoveryOf != Some(c)
    ensures MirrorInv(xs[e := y][c := Replacement(y, e)], MoveRepair(rs, e, c))
  {
    var z := Replacement(y, e);
    var ys, ss := xs[e := y][c := z], MoveRepair(rs, e, c);
    assert SameAttempts(rs, ss);
    forall a: Id ensures TipLaw(ys, ss, a) {
      assert TipLaw(xs, rs, a);
    }
    forall a: Id, b: Id ensures LastLaw(ys, ss, a, b) {
      assert TipLaw(xs, rs, a) && LastLaw(xs, rs, a, b);
    }
    forall a, b ensures OneAttemptLaw(ss, a, b) {
      assert OneAttemptLaw(rs, a, b);
    }
    assert AttachedLaw(xs, rs, e) && RegisteredLaw(xs, rs, e);
    var tip :| tip in rs && rs[tip].execution == e;
    assert tip in ss && ss[tip].execution == c;
    forall d: Id ensures RegisteredLaw(ys, ss, d) {
      assert RegisteredLaw(xs, rs, d);
      if d in ys && ys[d].kind.Repair? {
        SameAttemptsRegister(rs, ss, ys[d].monitor, ys[d].generation.value);
      }
    }
    forall d: Id ensures AttachedLaw(ys, ss, d) {
      assert AttachedLaw(xs, rs, d);
      if d in xs && d != e && d != c && xs[d].kind.Repair? && InFlight(xs[d].state) {
        var a :| a in rs && rs[a].execution == d;
        assert a in ss && ss[a].execution == d;
      }
    }
  }

  /** Judging a candidate only touches attempts that are no longer in flight. */
  lemma ReviewKeepsMirror(xs: Executions, rs: Repairs, m: Id, r: Id, state: RepairState)
    requires MirrorInv(xs, rs)
    requires state.RepairActivated? || state.RepairRejected?
    ensures MirrorInv(xs, ReviewRepair(rs, m, r, state))
  {
    var ss := ReviewRepair(rs, m, r, state);
    assert SameAttempts(rs, ss);
    forall a: Id ensures TipLaw(xs, ss, a) {
      assert TipLaw(xs, rs, a);
    }
    forall a: Id, c: Id ensures LastLaw(xs, ss, a, c) {
      assert TipLaw(xs, rs, a) && LastLaw(xs, rs, a, c);
    }
    forall a, b ensures OneAttemptLaw(ss, a, b) {
      assert OneAttemptLaw(rs, a, b);
    }
    forall d: Id ensures RegisteredLaw(xs, ss, d) && AttachedLaw(xs, ss, d) {
      assert RegisteredLaw(xs, rs, d) && AttachedLaw(xs, rs, d);
      if d in xs && xs[d].kind.Repair? {
        SameAttemptsRegister(rs, ss, xs[d].monitor, xs[d].generation.value);
        if InFlight(xs[d].state) {
          var a :| a in rs && rs[a].execution == d;
          assert a in ss && ss[a].execution == d;
        }
      }
    }
  }
}

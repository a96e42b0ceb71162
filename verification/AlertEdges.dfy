/** The alert condition is a fold over verified check observations, and alerts are its rising edges. */
module AlertEdges {
  import opened Rows
  import opened Transactions
  import opened Lineage
  import opened Plans

  type Observations = seq<Observation>

  predicate Confirms(xs: Executions, o: Observation) {
    o.execution in xs && xs[o.execution].input.Confirmation?
  }

  /** Verified and made by a check: the only observations that count. */
  predicate Evidence(xs: Executions, o: Observation) {
    o.verified && o.execution in xs && xs[o.execution].kind.Check?
  }

  /** The fold: a confirmation sets the condition, an ordinary non-match clears it. */
  ghost predicate Armed(xs: Executions, os: Observations, m: Id) {
    if os == [] then false
    else
      var o, before := os[|os| - 1], Armed(xs, os[..|os| - 1], m);
      if o.monitor != m || !Evidence(xs, o) then before
      else if Confirms(xs, o) then o.matched
      else o.matched && before
  }

  /** Observation `i` turns the condition of its monitor from false to true. */
  ghost predicate Rising(xs: Executions, os: Observations, i: nat) {
    i < |os| && !Armed(xs, os[..i], os[i].monitor) && Armed(xs, os[..i + 1], os[i].monitor)
  }

  ghost function Edges(xs: Executions, os: Observations): seq<Alert> {
    if os == [] then []
    else
      var last := |os| - 1;
      Edges(xs, os[..last]) + if Rising(xs, os, last) then [Alert(os[last].monitor, last)] else []
  }

  // ---- Laws ----

  predicate SourceLaw(xs: Executions, os: Observations, i: nat) {
    i < |os| ==> os[i].execution in xs && xs[os[i].execution].state.Succeeded? && xs[os[i].execution].monitor == os[i].monitor
  }

  predicate ObservedOnceLaw(os: Observations, i: nat, j: nat) {
    i < |os| && j < |os| && os[i].execution == os[j].execution ==> i == j
  }

  /** A confirming observation comes after the observation that triggered it. */
  predicate OrderLaw(xs: Executions, os: Observations, i: nat) {
    i < |os| && Confirms(xs, os[i]) ==> xs[os[i].execution].input.trigger < i
  }

  ghost predicate ArmedLaw(ms: Monitors, xs: Executions, os: Observations, m: Id) {
    m in ms ==> ms[m].matched == Armed(xs, os, m)
  }

  /** A confirmation was triggered by an earlier verified match of an ordinary check of its monitor. */
  predicate Triggered(xs: Executions, os: Observations, x: Execution) {
    x.input.Confirmation? ==>
      && x.kind.Check? && x.input.trigger < |os|
      && var t := os[x.input.trigger];
         t.monitor == x.monitor && t.matched && Evidence(xs, t) && !Confirms(xs, t)
  }

  predicate TriggerLaw(xs: Executions, os: Observations, e: Id) {
    e in xs ==> Triggered(xs, os, xs[e])
  }

  /** While a confirmation is in flight the condition has not been met. */
  predicate QuietLaw(ms: Monitors, xs: Executions, e: Id) {
    e in xs && InFlight(xs[e].state) && xs[e].input.Confirmation? ==> xs[e].monitor in ms && !ms[xs[e].monitor].matched
  }

  ghost predicate SourcesInv(xs: Executions, os: Observations) {
    && (forall i :: SourceLaw(xs, os, i))
    && (forall i, j :: ObservedOnceLaw(os, i, j))
    && (forall i :: OrderLaw(xs, os, i))
  }

  ghost predicate AlertInv(ms: Monitors, xs: Executions, os: Observations, alerts: seq<Alert>) {
    && SourcesInv(xs, os)
    && (forall m :: ArmedLaw(ms, xs, os, m))
    && (forall e :: TriggerLaw(xs, os, e))
    && (forall e :: QuietLaw(ms, xs, e))
    && alerts == Edges(xs, os)
  }

  // ---- Consequences ----

  /** Alerts are listed in the order of the observations they report. */
  lemma {:induction false} EdgesOrdered(xs: Executions, os: Observations)
    ensures forall k :: 0 <= k < |Edges(xs, os)| ==> Edges(xs, os)[k].observation < |os|
    ensures forall j, k :: 0 <= j < k < |Edges(xs, os)| ==> Edges(xs, os)[j].observation < Edges(xs, os)[k].observation
  {
    if os != [] {
      EdgesOrdered(xs, os[..|os| - 1]);
    }
  }

  /** Observation `i` has an alert exactly when it is a rising edge. */
  lemma {:induction false} EdgesExact(xs: Executions, os: Observations, i: nat)
    requires i < |os|
    ensures Rising(xs, os, i) <==> Alert(os[i].monitor, i) in Edges(xs, os)
  {
    var last := |os| - 1;
    var shorter := os[..last];
    EdgesOrdered(xs, shorter);
    if i < last {
      assert shorter[..i] == os[..i] && shorter[..i + 1] == os[..i + 1];
      EdgesExact(xs, shorter, i);
    }
  }

  /** A rising edge is a verified, matching confirmation. */
  lemma RisingConfirms(xs: Executions, os: Observations, i: nat)
    requires Rising(xs, os, i)
    ensures Evidence(xs, os[i]) && Confirms(xs, os[i]) && os[i].matched
  {
    assert os[..i + 1][..i] == os[..i];
  }

  /** If the condition falls between two points, a verified non-match of the monitor lies between them. */
  lemma {:induction false} FallsOnNonMatch(xs: Executions, os: Observations, m: Id, since: nat, until: nat) returns (k: nat)
    requires since <= until <= |os| && Armed(xs, os[..since], m) && !Armed(xs, os[..until], m)
    ensures since <= k < until && os[k].monitor == m && Evidence(xs, os[k]) && !os[k].matched
    decreases until
  {
    assert os[..until][..until - 1] == os[..until - 1];
    if Armed(xs, os[..until - 1], m) {
      k := until - 1;
    } else {
      k := FallsOnNonMatch(xs, os, m, since, until - 1);
    }
  }

  // ---- Preservation ----

  lemma {:induction false} ArmedFrame(xs: Executions, ys: Executions, os: Observations, m: Id)
    requires Extends(xs, ys) && forall i :: 0 <= i < |os| ==> os[i].execution in xs
    ensures Armed(xs, os, m) == Armed(ys, os, m)
  {
    if os != [] {
      assert KeptRow(xs, ys, os[|os| - 1].execution);
      ArmedFrame(xs, ys, os[..|os| - 1], m);
    }
  }

  lemma {:induction false} EdgesFrame(xs: Executions, ys: Executions, os: Observations)
    requires Extends(xs, ys) && forall i :: 0 <= i < |os| ==> os[i].execution in xs
    ensures Edges(xs, os) == Edges(ys, os)
  {
    if os != [] {
      var last := |os| - 1;
      EdgesFrame(xs, ys, os[..last]);
      ArmedFrame(xs, ys, os[..last], os[last].monitor);
      ArmedFrame(xs, ys, os[..last + 1], os[last].monitor);
    }
  }

  lemma SourcesKnown(xs: Executions, os: Observations)
    requires SourcesInv(xs, os)
    ensures forall i :: 0 <= i < |os| ==> os[i].execution in xs
  {
    forall i | 0 <= i < |os| ensures os[i].execution in xs {
      assert SourceLaw(xs, os, i);
    }
  }

  lemma ExecutionsKeepAlerts(ms: Monitors, xs: Executions, ys: Executions, os: Observations, alerts: seq<Alert>)
    requires AlertInv(ms, xs, os, alerts) && Extends(xs, ys)
    requires forall e :: e in xs && e in ys && InFlight(ys[e].state) ==> InFlight(xs[e].state)
    requires forall e :: e in ys && e !in xs ==> Triggered(xs, os, ys[e]) && QuietLaw(ms, ys, e)
    ensures AlertInv(ms, ys, os, alerts)
  {
    SourcesKnown(xs, os);
    forall i: nat ensures SourceLaw(ys, os, i) && OrderLaw(ys, os, i) {
      assert SourceLaw(xs, os, i) && OrderLaw(xs, os, i);
      if i < |os| {
        assert KeptRow(xs, ys, os[i].execution);
      }
    }
    forall m: Id ensures ArmedLaw(ms, ys, os, m) {
      assert ArmedLaw(ms, xs, os, m);
      ArmedFrame(xs, ys, os, m);
    }
    EdgesFrame(xs, ys, os);
    forall e: Id ensures TriggerLaw(ys, os, e) {
      TriggerFrame(xs, ys, os, e);
    }
    forall e: Id ensures QuietLaw(ms, ys, e) {
      assert QuietLaw(ms, xs, e) && KeptRow(xs, ys, e);
    }
  }

  lemma TriggerFrame(xs: Executions, ys: Executions, os: Observations, e: Id)
    requires Extends(xs, ys) && SourcesInv(xs, os) && TriggerLaw(xs, os, e)
    requires e in ys && e !in xs ==> Triggered(xs, os, ys[e])
    ensures TriggerLaw(ys, os, e)
  {
    assert KeptRow(xs, ys, e);
    if e in ys && ys[e].input.Confirmation? {
      assert KeptRow(xs, ys, os[ys[e].input.trigger].execution);
    }
  }

  /** Columns other than `matched` may change; a new monitor starts unmatched and unobserved. */
  lemma MonitorsKeepAlerts(ms: Monitors, ns: Monitors, xs: Executions, os: Observations, alerts: seq<Alert>)
    requires AlertInv(ms, xs, os, alerts)
    requires forall m :: m in ms ==> m in ns && ns[m].matched == ms[m].matched
    requires forall m :: m in ns && m !in ms ==> !ns[m].matched && forall i :: 0 <= i < |os| ==> os[i].monitor != m
    ensures AlertInv(ns, xs, os, alerts)
  {
    forall m: Id ensures ArmedLaw(ns, xs, os, m) {
      assert ArmedLaw(ms, xs, os, m);
      if m in ns && m !in ms {
        NeverArmed(xs, os, m);
      }
    }
    forall e: Id ensures QuietLaw(ns, xs, e) {
      assert QuietLaw(ms, xs, e);
    }
  }

  lemma {:induction false} NeverArmed(xs: Executions, os: Observations, m: Id)
    requires forall i :: 0 <= i < |os| ==> os[i].monitor != m
    ensures !Armed(xs, os, m)
  {
    if os != [] {
      NeverArmed(xs, os[..|os| - 1], m);
    }
  }

  /** What recording observation `o` does to the condition of its monitor. */
  ghost predicate Latched(xs: Executions, o: Observation, before: bool, now: bool) {
    now == if !Evidence(xs, o) then before else if Confirms(xs, o) then o.matched else o.matched && before
  }

  /** One more observation of an idle monitor, its condition updated, and an alert on a rising edge. */
  lemma ObservationKeepsAlerts(ms: Monitors, ns: Monitors, xs: Executions, os: Observations, alerts: seq<Alert>, o: Observation)
    requires AlertInv(ms, xs, os, alerts)
    requires o.execution in xs && xs[o.execution].state.Succeeded? && xs[o.execution].monitor == o.monitor
    requires forall i :: 0 <= i < |os| ==> os[i].execution != o.execution
    requires o.monitor in ms && !Busy(xs, o.monitor)
    requires ns.Keys == ms.Keys && Latched(xs, o, ms[o.monitor].matched, ns[o.monitor].matched)
    requires forall m :: m in ms && m != o.monitor ==> ns[m].matched == ms[m].matched
    ensures AlertInv(ns, xs, os + [o],
      alerts + if ns[o.monitor].matched && !ms[o.monitor].matched then [Alert(o.monitor, |os|)] else [])
  {
    var more := os + [o];
    assert more[..|os|] == os && more[..|os| + 1] == more;
    assert TriggerLaw(xs, os, o.execution);
    forall i: nat ensures SourceLaw(xs, more, i) && OrderLaw(xs, more, i) {
      assert SourceLaw(xs, os, i) && OrderLaw(xs, os, i);
    }
    forall i: nat, j: nat ensures ObservedOnceLaw(more, i, j) {
      assert ObservedOnceLaw(os, i, j);
    }
    forall m: Id ensures ArmedLaw(ns, xs, more, m) {
      assert ArmedLaw(ms, xs, os, m);
    }
    assert ArmedLaw(ms, xs, os, o.monitor) && ArmedLaw(ns, xs, more, o.monitor);
    forall e: Id ensures TriggerLaw(xs, more, e) {
      assert TriggerLaw(xs, os, e);
    }
    forall e: Id ensures QuietLaw(ns, xs, e) {
      assert QuietLaw(ms, xs, e);
    }
  }
}

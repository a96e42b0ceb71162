/**
 What the executions table alone keeps: one execution in flight per monitor,
 recovery chains, and one execution per inference slot and attempt.
 */
module Lineage {
  import opened Rows
  import opened Transactions

  type Executions = map<Id, Execution>

  predicate SameWork(x: Execution, y: Execution) {
    x.monitor == y.monitor && x.kind == y.kind && x.revision == y.revision && x.generation == y.generation && x.input == y.input
  }

  /** `c` replaces `p`: the parent is finished and the child repeats its work one attempt later. */
  predicate Replaces(c: Execution, p: Execution) {
    SameWork(c, p) && !InFlight(p.state) && c.attempt == p.attempt + 1
  }

  // Each law below is a named predicate of one or two ids, and an invariant says it
  // holds of all ids; a proof instantiates a law by naming it.

  predicate FlightLaw(xs: Executions, d: Id, e: Id) {
    d in xs && e in xs && xs[d].monitor == xs[e].monitor && InFlight(xs[d].state) && InFlight(xs[e].state) ==> d == e
  }

  predicate AttemptLaw(xs: Executions, e: Id, max: nat) {
    e in xs ==> 1 <= xs[e].attempt <= max && (xs[e].recoveryOf.None? ==> xs[e].attempt == 1)
  }

  predicate ParentLaw(xs: Executions, e: Id) {
    e in xs && xs[e].recoveryOf.Some? ==> xs[e].recoveryOf.value in xs && Replaces(xs[e], xs[xs[e].recoveryOf.value])
  }

  predicate OnlyChildLaw(xs: Executions, d: Id, e: Id) {
    d in xs && e in xs && xs[d].recoveryOf.Some? && xs[d].recoveryOf == xs[e].recoveryOf ==> d == e
  }

  /** Compile work of a monitor is one slot, repair work of each failed generation another. */
  predicate SameSlot(x: Execution, y: Execution) {
    x.monitor == y.monitor && x.kind == y.kind && !x.kind.Check? && x.generation == y.generation
  }

  predicate SlotLaw(xs: Executions, d: Id, e: Id) {
    d in xs && e in xs && SameSlot(xs[d], xs[e]) ==>
      (xs[d].attempt == xs[e].attempt ==> d == e) && (InFlight(xs[e].state) ==> xs[d].attempt <= xs[e].attempt)
  }

  predicate KeyLaw(xs: Executions, d: Id, e: Id) {
    d in xs && e in xs && xs[d].monitor == xs[e].monitor && xs[d].key == xs[e].key && xs[d].key != "" ==> d == e
  }

  ghost predicate Chains(xs: Executions, max: nat) {
    && (forall e :: AttemptLaw(xs, e, max))
    && (forall e :: ParentLaw(xs, e))
    && (forall d, e :: OnlyChildLaw(xs, d, e))
  }

  ghost predicate Slots(xs: Executions) {
    forall d, e :: SlotLaw(xs, d, e)
  }

  ghost predicate SingleFlight(xs: Executions) {
    forall d, e :: FlightLaw(xs, d, e)
  }

  ghost predicate Keys(xs: Executions) {
    forall d, e :: KeyLaw(xs, d, e)
  }

  ghost predicate LineageInv(xs: Executions, max: nat) {
    SingleFlight(xs) && Chains(xs, max) && Slots(xs) && Keys(xs)
  }

  /** `y` is `x` with at most its state and start time moved on. */
  predicate Progressed(x: Execution, y: Execution) {
    && y == x.(state := y.state, startedAt := y.startedAt)
    && (!InFlight(x.state) ==> y == x)
  }

  predicate KeptRow(xs: Executions, ys: Executions, e: Id) {
    e in xs ==> e in ys && Progressed(xs[e], ys[e])
  }

  /** Nothing is ever deleted, and finished rows and the work of every row are frozen. */
  ghost predicate Extends(xs: Executions, ys: Executions) {
    forall e :: KeptRow(xs, ys, e)
  }

  /** Nobody recovers an execution that does not exist yet. */
  lemma FreshHasNoChild(xs: Executions, c: Id, max: nat)
    requires LineageInv(xs, max) && c !in xs
    ensures forall d :: d in xs ==> xs[d].recoveryOf != Some(c)
  {
    forall d | d in xs ensures xs[d].recoveryOf != Some(c) {
      assert ParentLaw(xs, d);
    }
  }

  lemma ExtendsTransitive(xs: Executions, ys: Executions, zs: Executions)
    requires Extends(xs, ys) && Extends(ys, zs)
    ensures Extends(xs, zs)
  {
    forall e ensures KeptRow(xs, zs, e) {
      assert KeptRow(xs, ys, e) && KeptRow(ys, zs, e);
    }
  }

  lemma ProgressKeepsLineage(xs: Executions, e: Id, y: Execution, max: nat)
    requires LineageInv(xs, max)
    requires e in xs && Progressed(xs[e], y) && (InFlight(y.state) ==> InFlight(xs[e].state))
    ensures LineageInv(xs[e := y], max)
    ensures Extends(xs, xs[e := y])
  {
    var ys := xs[e := y];
    forall c ensures AttemptLaw(ys, c, max) && ParentLaw(ys, c) && KeptRow(xs, ys, c) {
      assert AttemptLaw(xs, c, max) && ParentLaw(xs, c);
    }
    forall c, d ensures FlightLaw(ys, c, d) && OnlyChildLaw(ys, c, d) && SlotLaw(ys, c, d) && KeyLaw(ys, c, d) {
      assert FlightLaw(xs, c, d) && OnlyChildLaw(xs, c, d) && SlotLaw(xs, c, d) && KeyLaw(xs, c, d);
    }
  }

  /** A root may be added when its monitor is idle and its slot and key unused. */
  ghost predicate RootFits(xs: Executions, x: Execution) {
    && x.recoveryOf.None? && x.attempt == 1 && x.state.Queued?
    && !Busy(xs, x.monitor)
    && (forall d :: d in xs ==> !SameSlot(xs[d], x))
    && (forall d :: d in xs && x.key != "" ==> xs[d].monitor != x.monitor || xs[d].key != x.key)
  }

  lemma RootKeepsLineage(xs: Executions, e: Id, x: Execution, max: nat)
    requires LineageInv(xs, max) && 1 <= max
    requires e !in xs && RootFits(xs, x)
    ensures LineageInv(xs[e := x], max)
    ensures Extends(xs, xs[e := x])
  {
    var ys := xs[e := x];
    forall c ensures AttemptLaw(ys, c, max) && ParentLaw(ys, c) && KeptRow(xs, ys, c) {
      assert AttemptLaw(xs, c, max) && ParentLaw(xs, c);
    }
    forall c, d ensures FlightLaw(ys, c, d) && OnlyChildLaw(ys, c, d) {
      assert FlightLaw(xs, c, d) && OnlyChildLaw(xs, c, d);
    }
    forall c, d ensures SlotLaw(ys, c, d) && KeyLaw(ys, c, d) {
      assert SlotLaw(xs, c, d) && KeyLaw(xs, c, d);
    }
  }

  /** A child may be added to a finished, childless row that is the last of its slot. */
  ghost predicate ChildFits(xs: Executions, p: Id, max: nat) {
    && p in xs && !InFlight(xs[p].state) && xs[p].attempt < max
    && !Busy(xs, xs[p].monitor)
    && !HasChild(xs, p)
    && (forall d :: d in xs && SameSlot(xs[d], xs[p]) ==> xs[d].attempt <= xs[p].attempt)
  }

  lemma ChildKeepsLineage(xs: Executions, p: Id, c: Id, max: nat)
    requires LineageInv(xs, max)
    requires c !in xs && ChildFits(xs, p, max)
    ensures LineageInv(xs[c := Replacement(xs[p], p)], max)
    ensures Extends(xs, xs[c := Replacement(xs[p], p)])
  {
    var y := Replacement(xs[p], p);
    var ys := xs[c := y];
    assert AttemptLaw(xs, p, max);
    forall k ensures AttemptLaw(ys, k, max) && ParentLaw(ys, k) && KeptRow(xs, ys, k) {
      assert AttemptLaw(xs, k, max) && ParentLaw(xs, k);
    }
    forall k, d ensures FlightLaw(ys, k, d) && OnlyChildLaw(ys, k, d) {
      assert FlightLaw(xs, k, d) && OnlyChildLaw(xs, k, d);
    }
    forall d | d in xs && SameSlot(xs[d], y) ensures xs[d].attempt < y.attempt {
      assert SameSlot(xs[d], xs[p]);
    }
    forall k, d ensures SlotLaw(ys, k, d) && KeyLaw(ys, k, d) {
      assert SlotLaw(xs, k, d) && KeyLaw(xs, k, d);
    }
  }

  /** Finishing the one execution in flight leaves an idle monitor and a row that may be replaced. */
  lemma FinishedFits(xs: Executions, e: Id, y: Execution, max: nat)
    requires LineageInv(xs, max)
    requires e in xs && InFlight(xs[e].state) && Progressed(xs[e], y) && !InFlight(y.state)
    ensures !Busy(xs[e := y], y.monitor)
    ensures y.attempt < max ==> ChildFits(xs[e := y], e, max)
  {
    var ys := xs[e := y];
    forall d: Id ensures !(d in ys && ys[d].monitor == y.monitor && InFlight(ys[d].state)) {
      assert FlightLaw(xs, d, e);
    }
    forall c: Id ensures !(c in ys && ys[c].recoveryOf == Some(e)) {
      assert ParentLaw(xs, c);
    }
    forall d | d in ys && SameSlot(ys[d], ys[e]) ensures ys[d].attempt <= ys[e].attempt {
      assert SlotLaw(xs, d, e);
    }
  }

  // ---- Attempts are chain depths ----

  /** The chain of ids from the root execution to `e`. */
  ghost function ChainOf(xs: Executions, e: Id, max: nat): (chain: seq<Id>)
    requires Chains(xs, max) && e in xs
    ensures 0 < |chain| == xs[e].attempt <= max
    ensures chain[|chain| - 1] == e
    ensures forall i :: 0 <= i < |chain| ==> chain[i] in xs && xs[chain[i]].attempt == i + 1 && SameWork(xs[chain[i]], xs[e])
    ensures xs[chain[0]].recoveryOf.None?
    ensures forall i :: 0 < i < |chain| ==> xs[chain[i]].recoveryOf == Some(chain[i - 1])
    decreases xs[e].attempt
  {
    assert AttemptLaw(xs, e, max);
    if xs[e].recoveryOf.None? then [e]
    else
      var p := xs[e].recoveryOf.value;
      assert ParentLaw(xs, e) && AttemptLaw(xs, p, max);
      ChainOf(xs, p, max) + [e]
  }

  /** Chains are disjoint: two chains that share an execution agree from their roots up to it. */
  lemma {:induction false} ChainsDisjoint(xs: Executions, d: Id, e: Id, i: nat, j: nat, max: nat)
    requires Chains(xs, max) && d in xs && e in xs
    requires i < |ChainOf(xs, d, max)| && j < |ChainOf(xs, e, max)|
    requires ChainOf(xs, d, max)[i] == ChainOf(xs, e, max)[j]
    ensures i == j
    ensures ChainOf(xs, d, max)[..i] == ChainOf(xs, e, max)[..j]
  {
    var dc, ec := ChainOf(xs, d, max), ChainOf(xs, e, max);
    assert xs[dc[i]].attempt == i + 1 && xs[ec[j]].attempt == j + 1;
    if i > 0 {
      assert dc[i - 1] == ec[i - 1];
      ChainsDisjoint(xs, d, e, i - 1, j - 1, max);
      assert dc[..i] == dc[..i - 1] + [dc[i - 1]];
      assert ec[..i] == ec[..i - 1] + [ec[i - 1]];
    }
  }

  /** Chains that share an execution run together: one is the beginning of the other. */
  lemma {:induction false} ChainsNest(xs: Executions, d: Id, e: Id, i: nat, k: nat, max: nat)
    requires Chains(xs, max) && d in xs && e in xs
    requires i <= k < |ChainOf(xs, d, max)| && k < |ChainOf(xs, e, max)|
    requires ChainOf(xs, d, max)[i] == ChainOf(xs, e, max)[i]
    ensures ChainOf(xs, d, max)[k] == ChainOf(xs, e, max)[k]
  {
    if i < k {
      ChainsNest(xs, d, e, i, k - 1, max);
      assert OnlyChildLaw(xs, ChainOf(xs, d, max)[k], ChainOf(xs, e, max)[k]);
    }
  }

  /** `chain` is the recovery chain from a root to `e`. */
  ghost predicate ChainTo(xs: Executions, e: Id, chain: seq<Id>) {
    && 0 < |chain| && chain[|chain| - 1] == e
    && (forall i :: 0 <= i < |chain| ==> chain[i] in xs)
    && xs[chain[0]].recoveryOf.None?
    && (forall i :: 0 < i < |chain| ==> xs[chain[i]].recoveryOf == Some(chain[i - 1]))
  }

  lemma ChainIs(xs: Executions, e: Id, max: nat)
    requires Chains(xs, max) && e in xs
    ensures ChainTo(xs, e, ChainOf(xs, e, max))
  {
    hide Chains;
  }

  lemma ChainsTogether(xs: Executions, d: Id, e: Id, i: nat, j: nat, max: nat)
    requires Chains(xs, max) && d in xs && e in xs
    requires i < |ChainOf(xs, d, max)| && j < |ChainOf(xs, e, max)|
    requires ChainOf(xs, d, max)[i] == ChainOf(xs, e, max)[j]
    ensures ChainOf(xs, d, max) <= ChainOf(xs, e, max) || ChainOf(xs, e, max) <= ChainOf(xs, d, max)
  {
    hide Chains, SameWork;
    var dc, ec := ChainOf(xs, d, max), ChainOf(xs, e, max);
    hide ChainOf;
    ChainsDisjoint(xs, d, e, i, j, max);
    forall k | 0 <= k < |dc| && k < |ec| ensures dc[k] == ec[k] {
      if k < i {
        assert dc[k] == dc[..i][k] && ec[k] == ec[..i][k];
      } else {
        ChainsNest(xs, d, e, i, k, max);
      }
    }
  }

  lemma ChainsApart(xs: Executions, d: Id, e: Id, max: nat) returns (dc: seq<Id>, ec: seq<Id>)
    requires Chains(xs, max) && d in xs && e in xs
    ensures ChainTo(xs, d, dc) && ChainTo(xs, e, ec)
    ensures (exists i, j :: 0 <= i < |dc| && 0 <= j < |ec| && dc[i] == ec[j]) <==> dc <= ec || ec <= dc
  {
    hide Chains, SameWork;
    dc, ec := ChainOf(xs, d, max), ChainOf(xs, e, max);
    hide ChainOf, ChainTo;
    ChainIs(xs, d, max);
    ChainIs(xs, e, max);
    if i, j :| 0 <= i < |dc| && 0 <= j < |ec| && dc[i] == ec[j] {
      ChainsTogether(xs, d, e, i, j, max);
    }
    assert dc <= ec || ec <= dc ==> dc[0] == ec[0];
  }

  // ---- Inference budget ----

  /** The compile and repair executions of monitor `m`. */
  ghost function Inference(xs: Executions, m: Id): set<Id> {
    set e | e in xs && xs[e].monitor == m && !xs[e].kind.Check?
  }

  /** Slot 0 is compilation, slot g the repair of generation g. */
  ghost function SlotOf(x: Execution): nat {
    if x.kind.Repair? && x.generation.Some? then x.generation.value else 0
  }

  predicate SlotNumberLaw(xs: Executions, e: Id) {
    e in xs ==>
      && (xs[e].kind.Compile? ==> xs[e].generation.None?)
      && (xs[e].kind.Repair? ==> xs[e].generation.Some? && xs[e].generation.value > 0)
  }

  ghost predicate SlotsNumbered(xs: Executions) {
    forall e :: SlotNumberLaw(xs, e)
  }

  ghost function SlotSet(xs: Executions, m: Id, slot: nat, k: nat): set<Id> {
    set e | e in Inference(xs, m) && SlotOf(xs[e]) == slot && xs[e].attempt <= k
  }

  ghost function SlotsBelow(xs: Executions, m: Id, n: nat): set<Id> {
    set e | e in Inference(xs, m) && SlotOf(xs[e]) < n
  }

  /** The executions of the first `n` slots number at most `max` per slot. */
  lemma {:induction false} SlotsBound(xs: Executions, m: Id, n: nat, max: nat)
    requires Chains(xs, max) && Slots(xs) && SlotsNumbered(xs)
    ensures |SlotsBelow(xs, m, n)| <= max * n
  {
    var below := SlotsBelow(xs, m, n);
    if n == 0 {
      assert below == {};
    } else {
      var lower, slot := SlotsBelow(xs, m, n - 1), SlotSet(xs, m, n - 1, max);
      forall e | e in below ensures e in lower || e in slot {
        assert AttemptLaw(xs, e, max);
      }
      assert below == lower + slot;
      UnionSize(lower, slot);
      SlotsBound(xs, m, n - 1, max);
      forall e ensures e in Inference(xs, m) ==> xs[e].attempt >= 1 {
        assert AttemptLaw(xs, e, max);
      }
      OneSlotBound(xs, m, n - 1, max);
      assert max * (n - 1) + max == max * n;
    }
  }

  lemma {:induction false} OneSlotBound(xs: Executions, m: Id, slot: nat, k: nat)
    requires Slots(xs) && SlotsNumbered(xs)
    requires forall e :: e in Inference(xs, m) ==> xs[e].attempt >= 1
    ensures |SlotSet(xs, m, slot, k)| <= k
  {
    var s := SlotSet(xs, m, slot, k);
    if k == 0 {
      assert s == {};
    } else {
      OneSlotBound(xs, m, slot, k - 1);
      var t := SlotSet(xs, m, slot, k - 1);
      if s != t {
        assert t <= s;
        var e :| e in s && e !in t;
        forall d | d in s ensures d in t || d == e {
          assert SlotNumberLaw(xs, d) && SlotNumberLaw(xs, e) && SlotLaw(xs, d, e);
        }
        assert s == t + {e};
      }
    }
  }

  lemma UnionSize(a: set<Id>, b: set<Id>)
    ensures |a + b| <= |a| + |b|
  {
    assert a + b == a + (b - a);
    assert |a + (b - a)| == |a| + |b - a|;
    assert b == (b - a) + (b * a);
  }
}

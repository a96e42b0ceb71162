/** The delivery half of the store: rows change in place, and refreshes scan the deliveries. */
module AlertStoreObject {
  import opened Rows
  import opened AlertBook

  class AlertStore {
    var alerts: seq<AlertRow>
    var deliveries: seq<DeliveryRow>
    const channels: seq<Channel>

    function State(): Book
      reads this
    {
      Book(alerts, deliveries)
    }

    constructor (configured: seq<Channel>)
      ensures State() == EMPTY_BOOK && BookInv(State()) && channels == configured
    {
      alerts, deliveries, channels := [], [], configured;
    }

    /** One scan counts open and failed deliveries and finds the latest delivery time. */
    method RefreshAlertState(a: nat)
      modifies this`alerts
      ensures State() == Refresh(old(State()), a)
    {
      var total, open, failed, latest := 0, 0, 0, None;
      for d := 0 to |deliveries|
        invariant total >= 0 && open >= 0 && failed >= 0
        invariant total > 0 <==> Any(deliveries[..d], a)
        invariant open > 0 <==> AnyOpen(deliveries[..d], a)
        invariant failed > 0 <==> AnyFailed(deliveries[..d], a)
        invariant latest == Latest(deliveries[..d], a)
        invariant alerts == old(alerts)
      {
        var row := deliveries[d];
        ScanStep(deliveries, d, a);
        if row.alert == a {
          total := total + 1;
          if Open(row) {
            open := open + 1;
          }
          if row.state.DeliveryFailed? {
            failed := failed + 1;
          }
          if row.deliveredAt.Some? && (latest.None? || latest.value < row.deliveredAt.value) {
            latest := row.deliveredAt;
          }
        }
      }
      assert deliveries[..|deliveries|] == deliveries;
      if total > 0 && a < |alerts| {
        var state := if open > 0 then AlertPending else if failed > 0 then AlertFailed else AlertDelivered;
        alerts := alerts[a := AlertRow(state, if open == 0 && failed == 0 then latest else None)];
      }
    }

    method RefreshAllAlertStates()
      modifies this`alerts
      ensures State() == RefreshAll(old(State()))
    {
      ghost var before := State();
      for a := 0 to |alerts|
        invariant |alerts| == |before.alerts|
        invariant forall k :: 0 <= k < a ==> alerts[k] == Refreshed(before, k)
        invariant forall k :: a <= k < |alerts| ==> alerts[k] == before.alerts[k]
      {
        RefreshAlertState(a);
      }
    }

    method InsertChannels(a: nat, now: int)
      modifies this`deliveries
      ensures deliveries == AddChannels(old(deliveries), a, channels, now)
    {
      for i := 0 to |channels|
        invariant AddChannels(old(deliveries), a, channels, now) == AddChannels(deliveries, a, channels[i..], now)
      {
        assert channels[i..][1..] == channels[i + 1..];
        if !HasChannel(deliveries, a, channels[i]) {
          deliveries := deliveries + [NewDelivery(a, channels[i], now)];
        }
      }
    }

    method CreateAlert(now: int) returns (a: nat)
      modifies this
      ensures a == |old(alerts)| && State() == Write(old(State()), ECreate(channels, now))
      ensures old(BookInv(State())) ==> BookInv(State())
    {
      ghost var before := State();
      a := |alerts|;
      alerts := alerts + [AlertRow(if |channels| > 0 then AlertPending else Unconfigured, None)];
      InsertChannels(a, now);
      WriteValid(before, ECreate(channels, now));
    }

    method SelectBackfill(limit: nat) returns (batch: seq<nat>)
      ensures |batch| <= limit && BackfillBatch(State(), batch)
      ensures |batch| < limit ==> forall a :: NeedsBackfill(State(), a) ==> a in batch
    {
      batch := [];
      var a := 0;
      while a < |alerts| && |batch| < limit
        invariant a <= |alerts| && |batch| <= limit && BackfillBatch(State(), batch)
        invariant forall i :: 0 <= i < |batch| ==> batch[i] < a
        invariant forall b :: 0 <= b < a && NeedsBackfill(State(), b) ==> b in batch
      {
        if NeedsBackfill(State(), a) {
          batch := batch + [a];
        }
        a := a + 1;
      }
    }

    /** ReconcileAlertDeliveries: backfill, retire removed channels, refresh everything. */
    method Reconcile(now: int) returns (batch: seq<nat>)
      modifies this
      ensures |batch| <= 500 && State() == Write(old(State()), EReconcile(batch, channels, now))
      ensures BackfillBatch(old(State()), batch)
      ensures |batch| < 500 ==> forall a :: NeedsBackfill(old(State()), a) ==> a in batch
      ensures |old(deliveries)| <= |deliveries|
      ensures forall d :: 0 <= d < |old(deliveries)| ==>
        var row := old(deliveries)[d];
        var free := row.state.DeliveryPending? || (row.state.Leased? && row.expiresAt.Some? && row.expiresAt.value <= now);
        deliveries[d] == if free && row.channel !in channels then row.(state := DeliveryFailed, owner := None, expiresAt := None) else row
      ensures old(BookInv(State())) ==> BookInv(State())
    {
      ghost var before := State();
      batch := SelectBackfill(500);
      for i := 0 to |batch|
        invariant |alerts| == |before.alerts|
        invariant Backfill(before, batch, channels, now) == Backfill(State(), batch[i..], channels, now)
        invariant before.deliveries <= deliveries
      {
        var a := batch[i];
        assert batch[i..][1..] == batch[i + 1..];
        assert NeedsBackfill(before, a);
        AddChannelsFacts(deliveries, a, channels, now);
        if |channels| == 0 {
          alerts := alerts[a := alerts[a].(state := Unconfigured)];
        } else {
          InsertChannels(a, now);
          alerts := alerts[a := alerts[a].(state := AlertPending)];
        }
      }
      deliveries := Retire(deliveries, channels, now);
      RefreshAllAlertStates();
      WriteValid(before, EReconcile(batch, channels, now));
    }

    /** The claim's scan: every available row is leased until the limit is reached. */
    method LeaseRows(owner: Id, until: int, limit: nat, now: int) returns (claimed: seq<(nat, nat)>)
      modifies this`deliveries
      ensures |claimed| <= limit && |deliveries| == |old(deliveries)|
      ensures forall i :: 0 <= i < |claimed| ==> claimed[i].0 < |deliveries| && claimed[i].1 == old(deliveries)[claimed[i].0].attempts + 1
      ensures forall d :: 0 <= d < |deliveries| ==>
        deliveries[d] == if Names(claimed, d) then Leasing(old(deliveries)[d], owner, until) else old(deliveries)[d]
      ensures forall d :: 0 <= d < |deliveries| && Names(claimed, d) ==> Available(old(deliveries)[d], channels, now)
      ensures |claimed| < limit ==> forall d :: 0 <= d < |deliveries| && Available(old(deliveries)[d], channels, now) ==> Names(claimed, d)
    {
      hide Available, Names;
      claimed := [];
      NamesNone();
      var d := 0;
      while d < |deliveries| && |claimed| < limit
        invariant d <= |deliveries| == |old(deliveries)| && |claimed| <= limit
        invariant forall i :: 0 <= i < |claimed| ==> claimed[i].0 < d && claimed[i].1 == old(deliveries)[claimed[i].0].attempts + 1
        invariant forall k :: 0 <= k < |deliveries| ==>
          deliveries[k] == if Names(claimed, k) then Leasing(old(deliveries)[k], owner, until) else old(deliveries)[k]
        invariant forall k: nat :: Names(claimed, k) ==> k < d && Available(old(deliveries)[k], channels, now)
        invariant forall k :: 0 <= k < d && Available(old(deliveries)[k], channels, now) ==> Names(claimed, k)
      {
        if Available(deliveries[d], channels, now) {
          deliveries := deliveries[d := Leasing(deliveries[d], owner, until)];
          NamesMore(claimed, d, deliveries[d].attempts);
          claimed := claimed + [(d, deliveries[d].attempts)];
        }
        d := d + 1;
      }
    }

    /** Leases up to `limit` due or expired deliveries; returns each with its attempt number. */
    method ClaimAlertDeliveries(owner: Id, seconds: int, limit: nat, now: int) returns (claimed: seq<(nat, nat)>)
      modifies this`deliveries
      ensures |claimed| <= limit
      ensures State() == Write(old(State()), EClaim(owner, set i | 0 <= i < |claimed| :: claimed[i].0, seconds, channels, now))
      ensures forall i :: 0 <= i < |claimed| ==>
        && claimed[i].0 < |deliveries| && LeasedBy(State(), claimed[i].0, owner)
        && claimed[i].1 == deliveries[claimed[i].0].attempts == old(deliveries)[claimed[i].0].attempts + 1
      ensures |claimed| < limit ==> forall d :: 0 <= d < |old(deliveries)| && Available(old(deliveries)[d], channels, now) ==> Names(claimed, d)
      ensures |deliveries| == |old(deliveries)|
      ensures forall d :: 0 <= d < |deliveries| && Names(claimed, d) ==>
        && Available(old(deliveries)[d], channels, now)
        && deliveries[d] == old(deliveries)[d].(state := Leased, attempts := old(deliveries)[d].attempts + 1,
                                                owner := Some(owner), expiresAt := Some(now + if seconds < 1 then 1 else seconds))
      ensures forall d :: 0 <= d < |deliveries| && !Names(claimed, d) ==> deliveries[d] == old(deliveries)[d]
      ensures old(BookInv(State())) ==> BookInv(State())
    {
      hide BookInv, Available;
      ghost var before := State();
      claimed := LeaseRows(owner, now + if seconds < 1 then 1 else seconds, limit, now);
      ghost var picked := set i | 0 <= i < |claimed| :: claimed[i].0;
      forall d | 0 <= d < |deliveries| ensures Available(before.deliveries[d], channels, now) <==> Claimable(before.deliveries[d], channels, now) {
        AvailableMeans(before.deliveries[d], channels, now);
      }
      assert forall d :: d in picked <==> Names(claimed, d);
      assert deliveries == Claim(before, owner, picked, seconds, channels, now).deliveries;
      WriteValid(before, EClaim(owner, picked, seconds, channels, now));
    }

    /** Not found unless the caller still holds the lease. */
    method CompleteAlertDelivery(d: nat, owner: Id, now: int) returns (found: bool)
      modifies this
      ensures State() == Write(old(State()), EComplete(d, owner, now))
      ensures found <==> d < |old(deliveries)| && old(deliveries)[d].state.Leased? && old(deliveries)[d].owner == Some(owner)
      ensures deliveries == if found
        then old(deliveries)[d := old(deliveries)[d].(state := Delivered, owner := None, expiresAt := None, deliveredAt := Some(now))]
        else old(deliveries)
      ensures old(BookInv(State())) ==> BookInv(State())
    {
      ghost var before := State();
      found := d < |deliveries| && deliveries[d].state.Leased? && deliveries[d].owner == Some(owner);
      if found {
        deliveries := deliveries[d := deliveries[d].(state := Delivered, owner := None, expiresAt := None, deliveredAt := Some(now))];
        RefreshAlertState(deliveries[d].alert);
      }
      WriteValid(before, EComplete(d, owner, now));
    }

    method FailAlertDelivery(d: nat, owner: Id, attempt: nat, maxAttempts: nat, nextAttempt: int, permanent: bool)
      returns (found: bool, state: DeliveryState)
      modifies this
      ensures State() == Write(old(State()), EFail(d, owner, attempt, maxAttempts, nextAttempt, permanent))
      ensures found <==> d < |old(deliveries)| && old(deliveries)[d].state.Leased? && old(deliveries)[d].owner == Some(owner)
      ensures state == if permanent || attempt >= maxAttempts then DeliveryFailed else DeliveryPending
      ensures deliveries == if found
        then old(deliveries)[d := old(deliveries)[d].(state := state, nextAttemptAt := nextAttempt, owner := None, expiresAt := None)]
        else old(deliveries)
      ensures old(BookInv(State())) ==> BookInv(State())
    {
      ghost var before := State();
      state := DeliveryPending;
      if permanent || attempt >= maxAttempts {
        state := DeliveryFailed;
      }
      found := d < |deliveries| && deliveries[d].state.Leased? && deliveries[d].owner == Some(owner);
      if found {
        deliveries := deliveries[d := deliveries[d].(state := state, nextAttemptAt := nextAttempt, owner := None, expiresAt := None)];
        RefreshAlertState(deliveries[d].alert);
      }
      WriteValid(before, EFail(d, owner, attempt, maxAttempts, nextAttempt, permanent));
    }
  }

  /** Work for a configured channel whose time has come, or whose lease has run out. */
  predicate Available(row: DeliveryRow, channels: seq<Channel>, now: int) {
    && row.channel in channels
    && (row.state.DeliveryPending? ==> row.nextAttemptAt <= now)
    && (row.state.Leased? ==> row.expiresAt.Some? && row.expiresAt.value <= now)
    && !row.state.Delivered? && !row.state.DeliveryFailed?
  }

  lemma AvailableMeans(row: DeliveryRow, channels: seq<Channel>, now: int)
    ensures Available(row, channels, now) <==> Claimable(row, channels, now)
  {
  }

  lemma NamesNone()
    ensures forall d: nat :: !Names([], d)
  {
  }

  lemma NamesMore(claimed: seq<(nat, nat)>, d: nat, attempt: nat)
    ensures forall k: nat :: Names(claimed + [(d, attempt)], k) <==> Names(claimed, k) || k == d
  {
    var more := claimed + [(d, attempt)];
    assert more[|claimed|] == (d, attempt);
    assert forall i :: 0 <= i < |claimed| ==> more[i] == claimed[i];
  }

  /** Delivery `d` is among the claimed ones. */
  predicate Names(claimed: seq<(nat, nat)>, d: nat) {
    exists i :: 0 <= i < |claimed| && claimed[i].0 == d
  }

  lemma WriteValid(book: Book, entry: Entry)
    ensures BookInv(book) ==> BookInv(Write(book, entry))
  {
    if BookInv(book) {
      WriteKeeps(book, entry);
    }
  }

  /** How one more row changes what a scan knows. */
  lemma ScanStep(ds: Deliveries, d: nat, a: nat)
    requires d < |ds|
    ensures Any(ds[..d + 1], a) <==> Any(ds[..d], a) || ds[d].alert == a
    ensures AnyOpen(ds[..d + 1], a) <==> AnyOpen(ds[..d], a) || (ds[d].alert == a && Open(ds[d]))
    ensures AnyFailed(ds[..d + 1], a) <==> AnyFailed(ds[..d], a) || (ds[d].alert == a && ds[d].state.DeliveryFailed?)
    ensures ds[..d + 1][..d] == ds[..d]
  {
    var before, after := ds[..d], ds[..d + 1];
    assert after[d] == ds[d];
    assert forall k :: 0 <= k < d ==> after[k] == before[k];
  }
}

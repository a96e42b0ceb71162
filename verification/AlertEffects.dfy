/** What alert deliveries mean for the alert, and how long a lease holds. */
module AlertEffects {
  import opened Rows
  import opened AlertBook
  import opened AlertStoreObject

  /** After every history: an alert is pending while any delivery is open, failed once one failed, and delivered when all are, at the last delivery's time. */
  lemma AlertStateMeans(entries: seq<Entry>, a: nat)
    requires a < |WriteAll(EMPTY_BOOK, entries).alerts|
    ensures var book := WriteAll(EMPTY_BOOK, entries);
      var row, ds := book.alerts[a], book.deliveries;
      && (row.state.Unconfigured? <==> forall d :: 0 <= d < |ds| ==> ds[d].alert != a)
      && (row.state.AlertPending? <==> exists d :: 0 <= d < |ds| && ds[d].alert == a && (ds[d].state.DeliveryPending? || ds[d].state.Leased?))
      && (row.state.AlertDelivered? <==>
            (exists d :: 0 <= d < |ds| && ds[d].alert == a) && forall d :: 0 <= d < |ds| && ds[d].alert == a ==> ds[d].state.Delivered?)
      && (row.state.AlertFailed? <==>
            (exists d :: 0 <= d < |ds| && ds[d].alert == a && ds[d].state.DeliveryFailed?)
            && forall d :: 0 <= d < |ds| && ds[d].alert == a ==> ds[d].state.Delivered? || ds[d].state.DeliveryFailed?)
      && (row.deliveredAt.Some? <==> row.state.AlertDelivered?)
      && (row.state.AlertDelivered? ==>
            && (forall d :: 0 <= d < |ds| && ds[d].alert == a ==> ds[d].deliveredAt.Some? && ds[d].deliveredAt.value <= row.deliveredAt.value)
            && exists d :: 0 <= d < |ds| && ds[d].alert == a && ds[d].deliveredAt == row.deliveredAt)
  {
    CacheIsAggregate(entries);
    var book := WriteAll(EMPTY_BOOK, entries);
    var ds := book.deliveries;
    assert book.alerts[a] == Aggregate(ds, a);
    forall d | 0 <= d < |ds| ensures ds[d].state.Delivered? <==> ds[d].deliveredAt.Some? {
      assert RowLaw(book, d);
    }
    LatestIsMax(ds, a);
  }

  /** The latest time is the time of some delivery, and no delivery is later. */
  lemma {:induction false} LatestIsMax(ds: Deliveries, a: nat)
    ensures forall d :: 0 <= d < |ds| && ds[d].alert == a && ds[d].deliveredAt.Some? ==> Latest(ds, a).Some? && ds[d].deliveredAt.value <= Latest(ds, a).value
    ensures Latest(ds, a).Some? ==> exists d :: 0 <= d < |ds| && ds[d].alert == a && ds[d].deliveredAt == Latest(ds, a)
  {
    if ds != [] {
      var before := ds[..|ds| - 1];
      LatestIsMax(before, a);
      if Latest(before, a).Some? {
        var d :| 0 <= d < |before| && before[d].alert == a && before[d].deliveredAt == Latest(before, a);
        assert ds[d] == before[d];
      }
      forall d | 0 <= d < |ds| && ds[d].alert == a && ds[d].deliveredAt.Some?
        ensures Latest(ds, a).Some? && ds[d].deliveredAt.value <= Latest(ds, a).value
      {
        assert d < |before| ==> before[d] == ds[d];
      }
    }
  }

  /** A new alert has exactly one delivery for each configured channel: pending, untried and due at once. */
  lemma CreationDelivers(entries: seq<Entry>, channels: seq<Channel>, now: int)
    ensures var book, after := WriteAll(EMPTY_BOOK, entries), Write(WriteAll(EMPTY_BOOK, entries), ECreate(channels, now));
      var a := |book.alerts|;
      && after.alerts == book.alerts + [AlertRow(if |channels| == 0 then Unconfigured else AlertPending, None)]
      && book.deliveries <= after.deliveries
      && (forall d :: |book.deliveries| <= d < |after.deliveries| ==>
            && after.deliveries[d].channel in channels
            && after.deliveries[d] == DeliveryRow(a, after.deliveries[d].channel, DeliveryPending, 0, now, None, None, None))
      && (forall c :: c in channels ==> exists d :: |book.deliveries| <= d < |after.deliveries| && after.deliveries[d].channel == c)
      && (forall d, e :: |book.deliveries| <= d < e < |after.deliveries| ==> after.deliveries[d].channel != after.deliveries[e].channel)
  {
    CacheIsAggregate(entries);
    var book := WriteAll(EMPTY_BOOK, entries);
    var a := |book.alerts|;
    WriteKeeps(book, ECreate(channels, now));
    ChannelsAdded(book.deliveries, a, channels, now);
    var es := AddChannels(book.deliveries, a, channels, now);
    forall d | 0 <= d < |book.deliveries| ensures es[d].alert != a {
      assert RowLaw(book, d) && es[d] == book.deliveries[d];
    }
    forall c | c in channels ensures exists d :: |book.deliveries| <= d < |es| && es[d].channel == c {
      var d :| 0 <= d < |es| && es[d].alert == a && es[d].channel == c;
    }
    forall d, e | |book.deliveries| <= d < e < |es| ensures es[d].channel != es[e].channel {
      assert ChannelLaw(es, d, e);
    }
  }

  lemma {:induction false} ChannelsAdded(ds: Deliveries, a: nat, channels: seq<Channel>, now: int)
    ensures var es := AddChannels(ds, a, channels, now);
      && ds <= es
      && (forall d :: |ds| <= d < |es| ==>
            es[d].channel in channels && es[d] == DeliveryRow(a, es[d].channel, DeliveryPending, 0, now, None, None, None))
      && (forall c :: c in channels ==> HasChannel(es, a, c))
    decreases |channels|
  {
    if channels != [] {
      var added := if HasChannel(ds, a, channels[0]) then ds else ds + [NewDelivery(a, channels[0], now)];
      ChannelsAdded(added, a, channels[1..], now);
      assert HasChannel(added, a, channels[0]) by {
        if added != ds {
          assert added[|ds|].channel == channels[0] && added[|ds|].alert == a;
        }
      }
      HasChannelKept(added, AddChannels(added, a, channels[1..], now), a, channels[0]);
      forall c | c in channels ensures HasChannel(AddChannels(ds, a, channels, now), a, c) {
        assert c == channels[0] || c in channels[1..];
      }
    }
  }

  lemma HasChannelKept(ds: Deliveries, es: Deliveries, a: nat, c: Channel)
    requires ds <= es && HasChannel(ds, a, c)
    ensures HasChannel(es, a, c)
  {
    var d :| 0 <= d < |ds| && ds[d].alert == a && ds[d].channel == c;
    assert es[d] == ds[d];
  }

  /** A lease taken at `t` keeps the delivery from everybody until it runs out, at least a second later; then any runner may take it. */
  lemma LeaseHolds(book: Book, owner: Id, picked: set<nat>, seconds: int, channels: seq<Channel>, t: int, now: int, d: nat)
    requires d < |book.deliveries| && d in picked && Available(book.deliveries[d], channels, t)
    ensures var row := Write(book, EClaim(owner, picked, seconds, channels, t)).deliveries[d];
      && row.owner == Some(owner) && row.attempts == book.deliveries[d].attempts + 1
      && (Available(row, channels, now) <==> t + seconds <= now && t + 1 <= now)
  {
  }

  /** What needs backfilling is exactly what has no delivery yet. */
  lemma BackfillMeans(entries: seq<Entry>, a: nat)
    ensures var book := WriteAll(EMPTY_BOOK, entries);
      NeedsBackfill(book, a) <==> a < |book.alerts| && forall d :: 0 <= d < |book.deliveries| ==> book.deliveries[d].alert != a
  {
    CacheIsAggregate(entries);
    var book := WriteAll(EMPTY_BOOK, entries);
    assert CachedLaw(book, a);
  }

  lemma {:induction false} BackfillServes(book: Book, batch: seq<nat>, channels: seq<Channel>, now: int, a: nat, c: Channel)
    requires a < |book.alerts| && (a in batch || HasChannel(book.deliveries, a, c)) && c in channels
    ensures HasChannel(Backfill(book, batch, channels, now).deliveries, a, c)
    decreases |batch|
  {
    if batch != [] {
      if batch[0] >= |book.alerts| {
        BackfillServes(book, batch[1..], channels, now, a, c);
      } else {
        ChannelsAdded(book.deliveries, batch[0], channels, now);
        if HasChannel(book.deliveries, a, c) {
          HasChannelKept(book.deliveries, BackfillOne(book, batch[0], channels, now).deliveries, a, c);
        }
        BackfillServes(BackfillOne(book, batch[0], channels, now), batch[1..], channels, now, a, c);
      }
    }
  }

  /** A reconciliation gives every alert of its batch a delivery for every configured channel. */
  lemma ReconcileServes(book: Book, batch: seq<nat>, channels: seq<Channel>, now: int, a: nat, c: Channel)
    requires BackfillBatch(book, batch) && a in batch && c in channels
    ensures HasChannel(Write(book, EReconcile(batch, channels, now)).deliveries, a, c)
  {
    var i :| 0 <= i < |batch| && batch[i] == a;
    assert NeedsBackfill(book, batch[i]);
    BackfillServes(book, batch, channels, now, a, c);
    var filled := Backfill(book, batch, channels, now).deliveries;
    var d :| 0 <= d < |filled| && filled[d].alert == a && filled[d].channel == c;
    var after := Write(book, EReconcile(batch, channels, now)).deliveries;
    assert after == Retire(filled, channels, now) && after[d] == Retired(filled[d], channels, now);
    assert after[d].alert == a && after[d].channel == c;
  }
}

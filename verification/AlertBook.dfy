/**
 Alert deliveries: leases with owners and expiries, and the delivery state
 cached on each alert. The book is the delivery columns of the alerts table and
 the alert_deliveries table; row ids are positions.
 */
module AlertBook {
  import opened Rows

  datatype Channel = Webhook | Discord

  datatype AlertState = Unconfigured | AlertPending | AlertDelivered | AlertFailed

  datatype AlertRow = AlertRow(state: AlertState, deliveredAt: Option<int>)

  datatype DeliveryState = DeliveryPending | Leased | Delivered | DeliveryFailed

  datatype DeliveryRow = DeliveryRow(
    alert: nat,
    channel: Channel,
    state: DeliveryState,
    attempts: nat,
    nextAttemptAt: int,
    owner: Option<Id>,
    expiresAt: Option<int>,
    deliveredAt: Option<int>)

  datatype Book = Book(alerts: seq<AlertRow>, deliveries: seq<DeliveryRow>)

  const EMPTY_BOOK := Book([], [])

  type Deliveries = seq<DeliveryRow>

  predicate Open(row: DeliveryRow) {
    row.state.DeliveryPending? || row.state.Leased?
  }

  // ---- The aggregate, recomputed from the deliveries ----

  predicate Any(ds: Deliveries, a: nat) {
    exists d :: 0 <= d < |ds| && ds[d].alert == a
  }

  predicate AnyOpen(ds: Deliveries, a: nat) {
    exists d :: 0 <= d < |ds| && ds[d].alert == a && Open(ds[d])
  }

  predicate AnyFailed(ds: Deliveries, a: nat) {
    exists d :: 0 <= d < |ds| && ds[d].alert == a && ds[d].state.DeliveryFailed?
  }

  /** max(delivered_at) over the deliveries of alert `a`. */
  function Latest(ds: Deliveries, a: nat): Option<int> {
    if ds == [] then None
    else
      var row, before := ds[|ds| - 1], Latest(ds[..|ds| - 1], a);
      if row.alert != a || row.deliveredAt.None? then before
      else if before.Some? && before.value >= row.deliveredAt.value then before
      else row.deliveredAt
  }

  function Aggregate(ds: Deliveries, a: nat): AlertRow {
    if !Any(ds, a) then AlertRow(Unconfigured, None)
    else if AnyOpen(ds, a) then AlertRow(AlertPending, None)
    else if AnyFailed(ds, a) then AlertRow(AlertFailed, None)
    else AlertRow(AlertDelivered, Latest(ds, a))
  }

  // ---- Statements ----

  /** refreshAlertState joins on existing deliveries, so an alert without any keeps its row. */
  function Refreshed(book: Book, a: nat): AlertRow
    requires a < |book.alerts|
  {
    if Any(book.deliveries, a) then Aggregate(book.deliveries, a) else book.alerts[a]
  }

  function Refresh(book: Book, a: nat): Book {
    if a < |book.alerts| then book.(alerts := book.alerts[a := Refreshed(book, a)]) else book
  }

  function RefreshAll(book: Book): Book {
    book.(alerts := seq(|book.alerts|, a requires 0 <= a < |book.alerts| => Refreshed(book, a)))
  }

  function NewDelivery(a: nat, channel: Channel, now: int): DeliveryRow {
    DeliveryRow(a, channel, DeliveryPending, 0, now, None, None, None)
  }

  predicate HasChannel(ds: Deliveries, a: nat, channel: Channel) {
    exists d :: 0 <= d < |ds| && ds[d].alert == a && ds[d].channel == channel
  }

  /** INSERT ... ON CONFLICT (alert_id, channel) DO NOTHING for each configured channel. */
  function AddChannels(ds: Deliveries, a: nat, channels: seq<Channel>, now: int): Deliveries
    decreases |channels|
  {
    if channels == [] then ds
    else AddChannels(if HasChannel(ds, a, channels[0]) then ds else ds + [NewDelivery(a, channels[0], now)], a, channels[1..], now)
  }

  // ---- Transactions ----

  function CreateAlert(book: Book, channels: seq<Channel>, now: int): Book {
    var a := |book.alerts|;
    Book(book.alerts + [AlertRow(if channels == [] then Unconfigured else AlertPending, None)],
         AddChannels(book.deliveries, a, channels, now))
  }

  predicate NeedsBackfill(book: Book, a: nat) {
    && a < |book.alerts|
    && (book.alerts[a].state.AlertPending? || book.alerts[a].state.Unconfigured?)
    && !Any(book.deliveries, a)
  }

  function BackfillOne(book: Book, a: nat, channels: seq<Channel>, now: int): Book
    requires a < |book.alerts|
  {
    if channels == [] then book.(alerts := book.alerts[a := book.alerts[a].(state := Unconfigured)])
    else Book(book.alerts[a := book.alerts[a].(state := AlertPending)], AddChannels(book.deliveries, a, channels, now))
  }

  function Backfill(book: Book, batch: seq<nat>, channels: seq<Channel>, now: int): Book
    decreases |batch|
  {
    if batch == [] then book
    else if batch[0] >= |book.alerts| then Backfill(book, batch[1..], channels, now)
    else Backfill(BackfillOne(book, batch[0], channels, now), batch[1..], channels, now)
  }

  predicate Expired(row: DeliveryRow, now: int) {
    row.state.Leased? && row.expiresAt.Some? && row.expiresAt.value <= now
  }

  /** Pending or expired work for a channel that is no longer configured is closed. */
  function Retired(row: DeliveryRow, channels: seq<Channel>, now: int): DeliveryRow {
    if (row.state.DeliveryPending? || Expired(row, now)) && row.channel !in channels
    then row.(state := DeliveryFailed, owner := None, expiresAt := None)
    else row
  }

  function Retire(ds: Deliveries, channels: seq<Channel>, now: int): Deliveries {
    seq(|ds|, d requires 0 <= d < |ds| => Retired(ds[d], channels, now))
  }

  predicate BackfillBatch(book: Book, batch: seq<nat>) {
    && (forall i :: 0 <= i < |batch| ==> NeedsBackfill(book, batch[i]))
    && (forall i, j :: 0 <= i < j < |batch| ==> batch[i] != batch[j])
  }

  /** ReconcileAlertDeliveries for the alerts its SELECT ... LIMIT happened to return. */
  function Reconcile(book: Book, batch: seq<nat>, channels: seq<Channel>, now: int): Book {
    if !BackfillBatch(book, batch) then book
    else
      var filled := Backfill(book, batch, channels, now);
      RefreshAll(filled.(deliveries := Retire(filled.deliveries, channels, now)))
  }

  predicate Claimable(row: DeliveryRow, channels: seq<Channel>, now: int) {
    row.channel in channels && ((row.state.DeliveryPending? && row.nextAttemptAt <= now) || Expired(row, now))
  }

  function Leasing(row: DeliveryRow, owner: Id, until: int): DeliveryRow {
    row.(state := Leased, attempts := row.attempts + 1, owner := Some(owner), expiresAt := Some(until))
  }

  /** ClaimAlertDeliveries for the rows it happened to pick. */
  function Claim(book: Book, owner: Id, picked: set<nat>, seconds: int, channels: seq<Channel>, now: int): Book {
    book.(deliveries := seq(|book.deliveries|, d requires 0 <= d < |book.deliveries| =>
      if d in picked && Claimable(book.deliveries[d], channels, now)
      then Leasing(book.deliveries[d], owner, now + if seconds < 1 then 1 else seconds)
      else book.deliveries[d]))
  }

  predicate LeasedBy(book: Book, d: nat, owner: Id) {
    d < |book.deliveries| && book.deliveries[d].state.Leased? && book.deliveries[d].owner == Some(owner)
  }

  function Complete(book: Book, d: nat, owner: Id, now: int): Book {
    if !LeasedBy(book, d, owner) then book
    else
      var row := book.deliveries[d].(state := Delivered, owner := None, expiresAt := None, deliveredAt := Some(now));
      Refresh(book.(deliveries := book.deliveries[d := row]), row.alert)
  }

  function Fail(book: Book, d: nat, owner: Id, attempt: nat, maxAttempts: nat, nextAttempt: int, permanent: bool): Book {
    if !LeasedBy(book, d, owner) then book
    else
      var state := if permanent || attempt >= maxAttempts then DeliveryFailed else DeliveryPending;
      var row := book.deliveries[d].(state := state, nextAttemptAt := nextAttempt, owner := None, expiresAt := None);
      Refresh(book.(deliveries := book.deliveries[d := row]), row.alert)
  }

  datatype Entry =
    | ECreate(channels: seq<Channel>, now: int)
    | EReconcile(batch: seq<nat>, channels: seq<Channel>, now: int)
    | EClaim(owner: Id, picked: set<nat>, seconds: int, channels: seq<Channel>, now: int)
    | EComplete(delivery: nat, owner: Id, now: int)
    | EFail(delivery: nat, owner: Id, attempt: nat, maxAttempts: nat, nextAttempt: int, permanent: bool)

  function Write(book: Book, entry: Entry): Book {
    match entry
    case ECreate(channels, now) => CreateAlert(book, channels, now)
    case EReconcile(batch, channels, now) => Reconcile(book, batch, channels, now)
    case EClaim(owner, picked, seconds, channels, now) => Claim(book, owner, picked, seconds, channels, now)
    case EComplete(d, owner, now) => Complete(book, d, owner, now)
    case EFail(d, owner, attempt, maxAttempts, nextAttempt, permanent) =>
      Fail(book, d, owner, attempt, maxAttempts, nextAttempt, permanent)
  }

  function WriteAll(book: Book, entries: seq<Entry>): Book {
    if entries == [] then book
    else Write(WriteAll(book, entries[..|entries| - 1]), entries[|entries| - 1])
  }

  // ---- Invariant ----

  predicate CachedLaw(book: Book, a: nat) {
    a < |book.alerts| ==> book.alerts[a] == Aggregate(book.deliveries, a)
  }

  predicate RowLaw(book: Book, d: nat) {
    d < |book.deliveries| ==>
      && book.deliveries[d].alert < |book.alerts|
      && (book.deliveries[d].state.Leased? <==> book.deliveries[d].owner.Some? && book.deliveries[d].expiresAt.Some?)
      && (book.deliveries[d].state.Delivered? <==> book.deliveries[d].deliveredAt.Some?)
  }

  /** UNIQUE (alert_id, channel). */
  predicate ChannelLaw(ds: Deliveries, d: nat, e: nat) {
    d < |ds| && e < |ds| && ds[d].alert == ds[e].alert && ds[d].channel == ds[e].channel ==> d == e
  }

  ghost predicate ChannelsInv(ds: Deliveries) {
    forall d, e :: ChannelLaw(ds, d, e)
  }

  ghost predicate BookInv(book: Book) {
    && (forall a :: CachedLaw(book, a))
    && (forall d :: RowLaw(book, d))
    && ChannelsInv(book.deliveries)
  }

  // ---- The aggregate depends only on the alert's own rows ----

  /** Two tables with the same rows of `a`, up to lease details, aggregate alike. */
  predicate Alike(x: DeliveryRow, y: DeliveryRow) {
    x.alert == y.alert && Open(x) == Open(y) && x.state.DeliveryFailed? == y.state.DeliveryFailed? && x.deliveredAt == y.deliveredAt
  }

  lemma {:induction false} LatestAlike(ds: Deliveries, es: Deliveries, a: nat)
    requires |ds| == |es|
    requires forall d :: 0 <= d < |ds| ==> (ds[d].alert == a || es[d].alert == a ==> Alike(ds[d], es[d]))
    ensures Latest(ds, a) == Latest(es, a)
  {
    if ds != [] {
      LatestAlike(ds[..|ds| - 1], es[..|es| - 1], a);
    }
  }

  lemma AggregateAlike(ds: Deliveries, es: Deliveries, a: nat)
    requires |ds| == |es|
    requires forall d :: 0 <= d < |ds| ==> (ds[d].alert == a || es[d].alert == a ==> Alike(ds[d], es[d]))
    ensures Aggregate(ds, a) == Aggregate(es, a) && Any(ds, a) == Any(es, a)
  {
    LatestAlike(ds, es, a);
    assert forall d :: 0 <= d < |ds| && es[d].alert == a ==> ds[d].alert == a;
  }

  lemma {:induction false} AggregateAppend(ds: Deliveries, row: DeliveryRow, a: nat)
    requires row.alert != a
    ensures Aggregate(ds + [row], a) == Aggregate(ds, a) && Any(ds + [row], a) == Any(ds, a)
  {
    var es := ds + [row];
    assert es[..|ds|] == ds;
    assert forall d :: 0 <= d < |ds| ==> es[d] == ds[d];
    assert forall d :: 0 <= d < |es| && es[d].alert == a ==> d < |ds|;
  }

  // ---- Preservation ----

  lemma RefreshKeeps(book: Book, a: nat)
    requires forall k :: k != a ==> CachedLaw(book, k)
    requires a < |book.alerts| && Any(book.deliveries, a)
    ensures forall k :: CachedLaw(Refresh(book, a), k)
  {
    forall k: nat ensures CachedLaw(Refresh(book, a), k) {
      assert k != a ==> CachedLaw(book, k);
    }
  }

  /** One leased row is settled and its alert refreshed. */
  lemma SettleKeeps(book: Book, d: nat, row: DeliveryRow)
    requires BookInv(book) && d < |book.deliveries|
    requires row.alert == book.deliveries[d].alert && row.channel == book.deliveries[d].channel
    requires !row.state.Leased? && row.owner.None? && row.expiresAt.None? && (row.state.Delivered? <==> row.deliveredAt.Some?)
    ensures BookInv(Refresh(book.(deliveries := book.deliveries[d := row]), row.alert))
  {
    var a, ds := row.alert, book.deliveries[d := row];
    var settled := book.(deliveries := ds);
    assert RowLaw(book, d);
    assert ds[d].alert == a;
    forall k: nat | k != a ensures CachedLaw(settled, k) {
      assert CachedLaw(book, k);
      AggregateAlike(book.deliveries, ds, k);
    }
    RefreshKeeps(settled, a);
    var after := Refresh(settled, a);
    forall e: nat ensures RowLaw(after, e) {
      assert RowLaw(book, e);
    }
    forall e: nat, f: nat ensures ChannelLaw(after.deliveries, e, f) {
      assert ChannelLaw(book.deliveries, e, f);
    }
  }

  lemma ClaimKeeps(book: Book, owner: Id, picked: set<nat>, seconds: int, channels: seq<Channel>, now: int)
    requires BookInv(book)
    ensures BookInv(Claim(book, owner, picked, seconds, channels, now))
  {
    var after := Claim(book, owner, picked, seconds, channels, now);
    forall a: nat ensures CachedLaw(after, a) {
      assert CachedLaw(book, a);
      AggregateAlike(book.deliveries, after.deliveries, a);
    }
    forall d: nat ensures RowLaw(after, d) {
      assert RowLaw(book, d);
    }
    forall d: nat, e: nat ensures ChannelLaw(after.deliveries, d, e) {
      assert ChannelLaw(book.deliveries, d, e);
    }
  }

  /** What adding the channels of an alert without deliveries does. */
  lemma {:induction false} AddChannelsFacts(ds: Deliveries, a: nat, channels: seq<Channel>, now: int)
    ensures ds <= AddChannels(ds, a, channels, now)
    ensures forall d :: |ds| <= d < |AddChannels(ds, a, channels, now)| ==>
      exists c :: AddChannels(ds, a, channels, now)[d] == NewDelivery(a, c, now)
    ensures channels != [] ==> Any(AddChannels(ds, a, channels, now), a)
    ensures forall k :: k != a ==> Aggregate(AddChannels(ds, a, channels, now), k) == Aggregate(ds, k)
    ensures forall k :: k != a ==> Any(AddChannels(ds, a, channels, now), k) == Any(ds, k)
    decreases |channels|
  {
    if channels != [] {
      var added := if HasChannel(ds, a, channels[0]) then ds else ds + [NewDelivery(a, channels[0], now)];
      AddChannelsFacts(added, a, channels[1..], now);
      if !HasChannel(ds, a, channels[0]) {
        forall k: nat | k != a ensures Aggregate(added, k) == Aggregate(ds, k) && Any(added, k) == Any(ds, k) {
          AggregateAppend(ds, NewDelivery(a, channels[0], now), k);
        }
        assert added[|ds|].alert == a;
      }
      var more := AddChannels(added, a, channels[1..], now);
      assert Any(added, a);
      var d :| 0 <= d < |added| && added[d].alert == a;
      assert more[d] == added[d];
    }
  }

  lemma {:induction false} AddChannelsDistinct(ds: Deliveries, a: nat, channels: seq<Channel>, now: int)
    requires ChannelsInv(ds)
    ensures ChannelsInv(AddChannels(ds, a, channels, now))
    decreases |channels|
  {
    if channels != [] {
      var added := if HasChannel(ds, a, channels[0]) then ds else ds + [NewDelivery(a, channels[0], now)];
      forall d: nat, e: nat ensures ChannelLaw(added, d, e) {
        assert ChannelLaw(ds, d, e);
      }
      AddChannelsDistinct(added, a, channels[1..], now);
    }
  }

  /** An alert that gets its first deliveries is pending, or stays unconfigured without channels. */
  lemma FirstChannels(ds: Deliveries, a: nat, channels: seq<Channel>, now: int)
    requires !Any(ds, a)
    ensures Aggregate(AddChannels(ds, a, channels, now), a) == AlertRow(if channels == [] then Unconfigured else AlertPending, None)
  {
    AddChannelsFacts(ds, a, channels, now);
    var es := AddChannels(ds, a, channels, now);
    if channels != [] {
      assert es[..|ds|] == ds;
      var d :| 0 <= d < |es| && es[d].alert == a && d >= |ds|;
      assert Open(es[d]);
    }
  }

  /** Adding the first deliveries of an alert whose row says so keeps the book in order. */
  lemma FillKeeps(book: Book, a: nat, after: Book, channels: seq<Channel>, now: int)
    requires BookInv(book) && !Any(book.deliveries, a) && a < |after.alerts|
    requires after.deliveries == AddChannels(book.deliveries, a, channels, now)
    requires |book.alerts| <= |after.alerts| <= |book.alerts| + 1 && a <= |book.alerts|
    requires |after.alerts| == |book.alerts| + 1 ==> a == |book.alerts|
    requires forall k :: 0 <= k < |book.alerts| && k != a ==> after.alerts[k] == book.alerts[k]
    requires after.alerts[a] == AlertRow(if channels == [] then Unconfigured else AlertPending, None)
    ensures BookInv(after)
    ensures forall k: nat :: k != a && k < |book.alerts| && !Any(book.deliveries, k) ==> !Any(after.deliveries, k)
  {
    AddChannelsFacts(book.deliveries, a, channels, now);
    AddChannelsDistinct(book.deliveries, a, channels, now);
    FirstChannels(book.deliveries, a, channels, now);
    forall k: nat ensures CachedLaw(after, k) {
      assert CachedLaw(book, k);
    }
    forall d: nat ensures RowLaw(after, d) {
      assert RowLaw(book, d);
      assert d < |book.deliveries| ==> after.deliveries[d] == book.deliveries[d];
    }
  }

  lemma CreateKeepsBook(book: Book, channels: seq<Channel>, now: int)
    requires BookInv(book)
    ensures BookInv(CreateAlert(book, channels, now))
  {
    var a := |book.alerts|;
    forall d | 0 <= d < |book.deliveries| ensures book.deliveries[d].alert != a {
      assert RowLaw(book, d);
    }
    FillKeeps(book, a, CreateAlert(book, channels, now), channels, now);
  }

  lemma {:induction false} BackfillKeeps(book: Book, batch: seq<nat>, channels: seq<Channel>, now: int)
    requires BookInv(book) && BackfillBatch(book, batch)
    ensures BookInv(Backfill(book, batch, channels, now))
    ensures forall k: nat :: k < |book.alerts| && k !in batch ==> Untouched(book, Backfill(book, batch, channels, now), k)
    ensures RowsKept(book.deliveries, Backfill(book, batch, channels, now).deliveries)
    decreases |batch|
  {
    if batch != [] {
      var a := batch[0];
      var one := BackfillOne(book, a, channels, now);
      assert CachedLaw(book, a) && NeedsBackfill(book, a);
      AddChannelsFacts(book.deliveries, a, channels, now);
      FillKeeps(book, a, one, channels, now);
      forall i | 0 < i < |batch| ensures NeedsBackfill(one, batch[i]) {
        assert NeedsBackfill(book, batch[i]);
      }
      BackfillKeeps(one, batch[1..], channels, now);
      var after := Backfill(one, batch[1..], channels, now);
      forall k: nat | k < |book.alerts| && k !in batch ensures Untouched(book, after, k) {
        assert Untouched(one, after, k);
      }
      RowsKeptTransitive(book.deliveries, one.deliveries, after.deliveries);
    }
  }

  /** Alert `k` kept its row and its aggregate. */
  predicate Untouched(book: Book, after: Book, k: nat) {
    && k < |book.alerts| && k < |after.alerts| && after.alerts[k] == book.alerts[k]
    && Aggregate(after.deliveries, k) == Aggregate(book.deliveries, k)
  }

  // ---- What no entry undoes ----

  predicate KeptDelivery(ds: Deliveries, es: Deliveries, d: nat) {
    d < |ds| ==>
      && d < |es| && es[d].alert == ds[d].alert && es[d].channel == ds[d].channel
      && ds[d].attempts <= es[d].attempts
      && (!Open(ds[d]) ==> es[d] == ds[d])
  }

  ghost predicate RowsKept(ds: Deliveries, es: Deliveries) {
    forall d :: KeptDelivery(ds, es, d)
  }

  lemma RowsKeptTransitive(ds: Deliveries, es: Deliveries, fs: Deliveries)
    requires RowsKept(ds, es) && RowsKept(es, fs)
    ensures RowsKept(ds, fs)
  {
    forall d: nat ensures KeptDelivery(ds, fs, d) {
      assert KeptDelivery(ds, es, d) && KeptDelivery(es, fs, d);
    }
  }

  lemma RetireKeeps(book: Book, channels: seq<Channel>, now: int)
    requires BookInv(book)
    ensures BookInv(RefreshAll(book.(deliveries := Retire(book.deliveries, channels, now))))
    ensures RowsKept(book.deliveries, Retire(book.deliveries, channels, now))
  {
    var ds, es := book.deliveries, Retire(book.deliveries, channels, now);
    var after := RefreshAll(book.(deliveries := es));
    assert forall d :: 0 <= d < |ds| ==> es[d].alert == ds[d].alert;
    forall a: nat ensures CachedLaw(after, a) {
      assert CachedLaw(book, a);
      assert Any(es, a) ==> Any(ds, a);
    }
    forall d: nat ensures RowLaw(after, d) {
      assert RowLaw(book, d);
    }
    forall d: nat, e: nat ensures ChannelLaw(es, d, e) {
      assert ChannelLaw(ds, d, e);
    }
  }

  lemma WriteKeeps(book: Book, entry: Entry)
    requires BookInv(book)
    ensures BookInv(Write(book, entry)) && RowsKept(book.deliveries, Write(book, entry).deliveries)
  {
    match entry
    case ECreate(channels, now) =>
      CreateKeepsBook(book, channels, now);
      AddChannelsFacts(book.deliveries, |book.alerts|, channels, now);
    case EReconcile(batch, channels, now) =>
      if BackfillBatch(book, batch) {
        BackfillKeeps(book, batch, channels, now);
        var filled := Backfill(book, batch, channels, now);
        RetireKeeps(filled, channels, now);
        RowsKeptTransitive(book.deliveries, filled.deliveries, Retire(filled.deliveries, channels, now));
      }
    case EClaim(owner, picked, seconds, channels, now) => ClaimKeeps(book, owner, picked, seconds, channels, now);
    case EComplete(d, owner, now) =>
      if LeasedBy(book, d, owner) {
        assert RowLaw(book, d);
        SettleKeeps(book, d, book.deliveries[d].(state := Delivered, owner := None, expiresAt := None, deliveredAt := Some(now)));
      }
    case EFail(d, owner, attempt, maxAttempts, nextAttempt, permanent) =>
      if LeasedBy(book, d, owner) {
        assert RowLaw(book, d);
        SettleKeeps(book, d, Fail(book, d, owner, attempt, maxAttempts, nextAttempt, permanent).deliveries[d]);
      }
  }

  /** The cached state of every alert is the aggregate of its deliveries after every history of entries. */
  lemma {:induction false} CacheIsAggregate(entries: seq<Entry>)
    ensures BookInv(WriteAll(EMPTY_BOOK, entries))
    ensures var book := WriteAll(EMPTY_BOOK, entries);
      forall a :: 0 <= a < |book.alerts| ==> book.alerts[a] == Aggregate(book.deliveries, a)
  {
    if entries != [] {
      CacheIsAggregate(entries[..|entries| - 1]);
      WriteKeeps(WriteAll(EMPTY_BOOK, entries[..|entries| - 1]), entries[|entries| - 1]);
    }
    var book := WriteAll(EMPTY_BOOK, entries);
    forall a | 0 <= a < |book.alerts| ensures book.alerts[a] == Aggregate(book.deliveries, a) {
      assert CachedLaw(book, a);
    }
  }

  predicate Closed(row: AlertRow) {
    row.state.AlertDelivered? || row.state.AlertFailed?
  }

  /** Once delivered or failed, an alert is never written again. */
  lemma ClosedStays(book: Book, entry: Entry, a: nat)
    requires BookInv(book) && a < |book.alerts| && Closed(book.alerts[a])
    ensures a < |Write(book, entry).alerts| && Write(book, entry).alerts[a] == book.alerts[a]
  {
    assert CachedLaw(book, a);
    match entry
    case EReconcile(batch, channels, now) =>
      if BackfillBatch(book, batch) {
        forall i | 0 <= i < |batch| ensures batch[i] != a {
          assert NeedsBackfill(book, batch[i]);
        }
        BackfillKeeps(book, batch, channels, now);
        var filled := Backfill(book, batch, channels, now);
        assert Untouched(book, filled, a);
        AggregateAlike(filled.deliveries, Retire(filled.deliveries, channels, now), a);
      }
    case _ =>
  }

  lemma {:induction false} ClosedIsFinal(entries: seq<Entry>, i: nat, a: nat)
    requires i <= |entries| && a < |WriteAll(EMPTY_BOOK, entries[..i]).alerts| && Closed(WriteAll(EMPTY_BOOK, entries[..i]).alerts[a])
    ensures a < |WriteAll(EMPTY_BOOK, entries).alerts|
    ensures WriteAll(EMPTY_BOOK, entries).alerts[a] == WriteAll(EMPTY_BOOK, entries[..i]).alerts[a]
  {
    if i == |entries| {
      assert entries[..i] == entries;
    } else {
      var shorter := entries[..|entries| - 1];
      assert shorter[..i] == entries[..i];
      ClosedIsFinal(shorter, i, a);
      CacheIsAggregate(shorter);
      ClosedStays(WriteAll(EMPTY_BOOK, shorter), entries[|entries| - 1], a);
    }
  }

  /** Delivered and failed deliveries are final, and attempt numbers never go back. */
  lemma {:induction false} SettledIsFinal(entries: seq<Entry>, i: nat)
    requires i <= |entries|
    ensures RowsKept(WriteAll(EMPTY_BOOK, entries[..i]).deliveries, WriteAll(EMPTY_BOOK, entries).deliveries)
  {
    if i == |entries| {
      assert entries[..i] == entries;
    } else {
      var shorter := entries[..|entries| - 1];
      assert shorter[..i] == entries[..i];
      SettledIsFinal(shorter, i);
      CacheIsAggregate(shorter);
      var book := WriteAll(EMPTY_BOOK, shorter);
      WriteKeeps(book, entries[|entries| - 1]);
      RowsKeptTransitive(WriteAll(EMPTY_BOOK, entries[..i]).deliveries, book.deliveries, WriteAll(EMPTY_BOOK, entries).deliveries);
    }
  }
}

/** Delivery runners: claim a batch, send every item, and only then claim again. */
module DeliveryRunner {
  import opened Rows
  import opened AlertBook
  import opened AlertStoreObject

  const MAX_ATTEMPTS := 6
  const CLAIM_LEASE := 45

  // ---- One delivery ----

  /** A Retry-After header (section 10.2.3 of RFC 9110): delay seconds or a date. */
  datatype RetryAfter = NoHeader | DelaySeconds(seconds: int) | HttpDate(when: int) | Unparsable

  datatype Response = TransportError | Response(status: int, retryAfter: RetryAfter)

  datatype Verdict = Sent | NotSent(permanent: bool, retryAt: int)

  predicate RetryableStatus(status: int) {
    status == 408 || status == 425 || status == 429 || status >= 500
  }

  function Pow2(n: nat): nat {
    if n == 0 then 1 else 2 * Pow2(n - 1)
  }

  function Min(a: int, b: int): int {
    if a < b then a else b
  }

  function Max(a: int, b: int): int {
    if a < b then b else a
  }

  /** Exponential backoff from five seconds, capped at fifteen minutes. */
  function RetryDelay(attempt: int): int {
    Min(5 * Pow2(Min(Max(attempt, 1) - 1, 8)), 900)
  }

  function ParseRetryAfter(header: RetryAfter, now: int): Option<int> {
    match header
    case DelaySeconds(n) => Some(now + Max(1, Min(n, 3600)))
    case HttpDate(t) => Some(Min(Max(t, now + 1), now + 3600))
    case NoHeader => None
    case Unparsable => None
  }

  function Judge(response: Response, attempt: int, now: int): Verdict {
    if response.Response? && 200 <= response.status < 300 then Sent
    else
      var retryAt := now + RetryDelay(attempt);
      if response.TransportError? then NotSent(false, retryAt)
      else
        var header := ParseRetryAfter(response.retryAfter, now);
        NotSent(!RetryableStatus(response.status), if header.Some? then header.value else retryAt)
  }

  /** The wait before the next attempt: what the server asked for, between a second and an hour, else doubling from five seconds to fifteen minutes. */
  function NextAttempt(header: RetryAfter, attempt: int, now: int): int {
    match header
    case DelaySeconds(n) => now + if n < 1 then 1 else if n > 3600 then 3600 else n
    case HttpDate(t) => if t < now + 1 then now + 1 else if t > now + 3600 then now + 3600 else t
    case _ => now + if attempt <= 1 then 5 else if attempt <= 8 then [5, 10, 20, 40, 80, 160, 320, 640][attempt - 1] else 900
  }

  function HeaderOf(response: Response): RetryAfter {
    if response.TransportError? then NoHeader else response.retryAfter
  }

  lemma DelayTable(attempt: int)
    ensures RetryDelay(attempt) == if attempt <= 1 then 5 else if attempt <= 8 then [5, 10, 20, 40, 80, 160, 320, 640][attempt - 1] else 900
  {
    assert Pow2(2) == 4 && Pow2(4) == 4 * Pow2(2) && Pow2(6) == 4 * Pow2(4) && Pow2(8) == 4 * Pow2(6);
  }

  /** Which answers end a delivery, which are retried, and when. */
  lemma JudgeMeans(response: Response, attempt: int, now: int)
    ensures Judge(response, attempt, now) ==
      if response.Response? && 200 <= response.status <= 299 then Sent
      else NotSent(response.Response? && response.status !in {408, 425, 429} && response.status < 500,
                   NextAttempt(HeaderOf(response), attempt, now))
  {
    hide RetryDelay;
    DelayTable(attempt);
  }

  /** Whatever the server answers, the next attempt is between one second and one hour away, and waits never shrink. */
  lemma RetryIsBounded(response: Response, attempt: int, later: int, now: int)
    requires attempt <= later
    ensures Judge(response, attempt, now).NotSent? ==> now + 1 <= Judge(response, attempt, now).retryAt <= now + 3600
    ensures 5 <= RetryDelay(attempt) <= RetryDelay(later) <= 900
    ensures Judge(response, attempt, now).Sent? <==> response.Response? && 200 <= response.status <= 299
    ensures Judge(response, attempt, now).NotSent? ==>
      (Judge(response, attempt, now).permanent <==> response.Response? && response.status !in {408, 425, 429} && response.status < 500)
  {
    hide Judge, RetryDelay;
    DelayTable(attempt);
    DelayTable(later);
    JudgeMeans(response, attempt, now);
  }

  /** One item of a batch: `retryAt` and `permanent` are settled step by step, then recorded. */
  method DeliverOne(store: AlertStore, owner: Id, d: nat, attempt: nat, response: Response, now: int) returns (recorded: bool)
    modifies store
    ensures recorded <==> LeasedBy(old(store.State()), d, owner)
    ensures store.State() == Recorded(old(store.State()), Handle(owner, d, attempt), Judge(response, attempt, now), now)
    ensures old(BookInv(store.State())) ==> BookInv(store.State())
    ensures |store.deliveries| == |old(store.deliveries)|
    ensures forall k :: 0 <= k < |store.deliveries| && !(recorded && k == d) ==> store.deliveries[k] == old(store.deliveries)[k]
    ensures recorded && response.Response? && 200 <= response.status <= 299 ==>
      store.deliveries[d] == old(store.deliveries)[d].(state := Delivered, owner := None, expiresAt := None, deliveredAt := Some(now))
    ensures recorded && !(response.Response? && 200 <= response.status <= 299) ==>
      var retried := response.TransportError? || response.status in {408, 425, 429} || response.status >= 500;
      store.deliveries[d] == old(store.deliveries)[d].(
        state := if retried && attempt < 6 then DeliveryPending else DeliveryFailed,
        nextAttemptAt := NextAttempt(HeaderOf(response), attempt, now), owner := None, expiresAt := None)
  {
    hide RetryDelay, BookInv, NextAttempt, Refresh;
    JudgeMeans(response, attempt, now);
    if response.Response? && 200 <= response.status < 300 {
      recorded := store.CompleteAlertDelivery(d, owner, now);
      return;
    }
    var permanent, retryAt := false, now + RetryDelay(attempt);
    if response.Response? {
      permanent := !RetryableStatus(response.status);
      var header := ParseRetryAfter(response.retryAfter, now);
      if header.Some? {
        retryAt := header.value;
      }
    }
    var state;
    recorded, state := store.FailAlertDelivery(d, owner, attempt, MAX_ATTEMPTS, retryAt, permanent);
  }

  /** What a verdict on a claimed delivery writes. */
  function Recorded(book: Book, h: Handle, verdict: Verdict, now: int): Book {
    if verdict.Sent? then Complete(book, h.delivery, h.owner, now)
    else Fail(book, h.delivery, h.owner, h.attempt, MAX_ATTEMPTS, verdict.retryAt, verdict.permanent)
  }

  // ---- All runners ----

  /** Runner `owner` still has to settle `delivery`, which it claimed as its `attempt`. */
  datatype Handle = Handle(owner: Id, delivery: nat, attempt: nat)

  datatype Fleet = Fleet(book: Book, handles: set<Handle>)

  datatype Move =
    | Background(entry: Entry)
    | ClaimBatch(owner: Id, picked: set<nat>, channels: seq<Channel>, now: int)
    | Settle(handle: Handle, response: Response, now: int)
    | Forget(handle: Handle)

  /** The handles a claim hands out. */
  function Granted(book: Book, owner: Id, picked: set<nat>, channels: seq<Channel>, now: int): set<Handle> {
    set d | d in picked && d < |book.deliveries| && Claimable(book.deliveries[d], channels, now) ::
      Handle(owner, d, book.deliveries[d].attempts + 1)
  }

  predicate Idle(f: Fleet, owner: Id) {
    forall h :: h in f.handles ==> h.owner != owner
  }

  /** `process` waits for its whole batch, so a runner claims only when it holds no handle. */
  function Act(f: Fleet, move: Move): Fleet {
    match move
    case Background(entry) =>
      if entry.ECreate? || entry.EReconcile? then f.(book := Write(f.book, entry)) else f
    case ClaimBatch(owner, picked, channels, now) =>
      if !Idle(f, owner) then f
      else Fleet(Claim(f.book, owner, picked, CLAIM_LEASE, channels, now), f.handles + Granted(f.book, owner, picked, channels, now))
    case Settle(h, response, now) =>
      if h !in f.handles then f
      else
        Fleet(Recorded(f.book, h, Judge(response, h.attempt, now), now), f.handles - {h})
    case Forget(h) => f.(handles := f.handles - {h})
  }

  function ActAll(f: Fleet, moves: seq<Move>): Fleet {
    if moves == [] then f else Act(ActAll(f, moves[..|moves| - 1]), moves[|moves| - 1])
  }

  const NO_FLEET := Fleet(EMPTY_BOOK, {})

  // ---- Fencing ----

  predicate HandleLaw(f: Fleet, h: Handle) {
    h in f.handles ==>
      && h.delivery < |f.book.deliveries|
      && h.attempt <= f.book.deliveries[h.delivery].attempts
      && (LeasedBy(f.book, h.delivery, h.owner) ==> h.attempt == f.book.deliveries[h.delivery].attempts)
  }

  predicate PendingLaw(f: Fleet, d: nat) {
    d < |f.book.deliveries| && f.book.deliveries[d].state.DeliveryPending? ==> f.book.deliveries[d].attempts < MAX_ATTEMPTS
  }

  ghost predicate FleetInv(f: Fleet) {
    && BookInv(f.book)
    && (forall h :: HandleLaw(f, h))
    && (forall d :: PendingLaw(f, d))
  }

  lemma BackgroundKeeps(f: Fleet, entry: Entry)
    requires FleetInv(f) && (entry.ECreate? || entry.EReconcile?)
    ensures FleetInv(f.(book := Write(f.book, entry)))
  {
    var t := f.(book := Write(f.book, entry));
    WriteKeeps(f.book, entry);
    forall d: nat ensures PendingLaw(t, d) && Quiet(f.book, t.book, d) {
      BackgroundRow(f.book, entry, d);
      assert PendingLaw(f, d);
    }
    forall h: Handle ensures HandleLaw(t, h) {
      assert HandleLaw(f, h) && KeptDelivery(f.book.deliveries, t.book.deliveries, h.delivery) && Quiet(f.book, t.book, h.delivery);
    }
  }

  /** Background work neither leases nor counts attempts. */
  predicate Quiet(book: Book, after: Book, d: nat) {
    d < |after.deliveries| ==>
      if d < |book.deliveries|
      then after.deliveries[d] == book.deliveries[d] || after.deliveries[d] == book.deliveries[d].(state := DeliveryFailed, owner := None, expiresAt := None)
      else after.deliveries[d].attempts == 0 && !after.deliveries[d].state.Leased?
  }

  lemma BackgroundRow(book: Book, entry: Entry, d: nat)
    requires BookInv(book) && (entry.ECreate? || entry.EReconcile?)
    ensures Quiet(book, Write(book, entry), d)
  {
    if entry.ECreate? {
      AddChannelsFacts(book.deliveries, |book.alerts|, entry.channels, entry.now);
    } else if BackfillBatch(book, entry.batch) {
      BackfillRow(book, entry.batch, entry.channels, entry.now, d);
    }
  }

  lemma {:induction false} BackfillRow(book: Book, batch: seq<nat>, channels: seq<Channel>, now: int, d: nat)
    ensures var ds, es := book.deliveries, Backfill(book, batch, channels, now).deliveries;
      |ds| <= |es| && (d < |es| ==> if d < |ds| then es[d] == ds[d] else es[d].attempts == 0 && es[d].state.DeliveryPending?)
    decreases |batch|
  {
    if batch != [] {
      if batch[0] < |book.alerts| {
        AddChannelsFacts(book.deliveries, batch[0], channels, now);
        BackfillRow(BackfillOne(book, batch[0], channels, now), batch[1..], channels, now, d);
      } else {
        BackfillRow(book, batch[1..], channels, now, d);
      }
    }
  }

  lemma ClaimBatchKeeps(f: Fleet, owner: Id, picked: set<nat>, channels: seq<Channel>, now: int)
    requires FleetInv(f) && Idle(f, owner)
    ensures FleetInv(Act(f, ClaimBatch(owner, picked, channels, now)))
  {
    var t := Act(f, ClaimBatch(owner, picked, channels, now));
    ClaimKeeps(f.book, owner, picked, CLAIM_LEASE, channels, now);
    forall h: Handle ensures HandleLaw(t, h) {
      assert HandleLaw(f, h);
    }
    forall d: nat ensures PendingLaw(t, d) {
      assert PendingLaw(f, d);
    }
  }

  lemma SettleKeepsFleet(f: Fleet, h: Handle, response: Response, now: int)
    requires FleetInv(f)
    ensures FleetInv(Act(f, Settle(h, response, now)))
  {
    var t := Act(f, Settle(h, response, now));
    if h in f.handles {
      var verdict := Judge(response, h.attempt, now);
      var entry := if verdict.Sent? then EComplete(h.delivery, h.owner, now)
        else EFail(h.delivery, h.owner, h.attempt, MAX_ATTEMPTS, verdict.retryAt, verdict.permanent);
      WriteKeeps(f.book, entry);
      assert t.book == Write(f.book, entry);
      assert HandleLaw(f, h);
      forall k: Handle ensures HandleLaw(t, k) {
        assert HandleLaw(f, k);
      }
      forall d: nat ensures PendingLaw(t, d) {
        assert PendingLaw(f, d);
      }
    }
  }

  lemma {:induction false} FleetReached(moves: seq<Move>)
    ensures FleetInv(ActAll(NO_FLEET, moves))
  {
    if moves != [] {
      var f, move := ActAll(NO_FLEET, moves[..|moves| - 1]), moves[|moves| - 1];
      FleetReached(moves[..|moves| - 1]);
      match move
      case Background(entry) =>
        if entry.ECreate? || entry.EReconcile? {
          BackgroundKeeps(f, entry);
        }
      case ClaimBatch(owner, picked, channels, now) =>
        if Idle(f, owner) {
          ClaimBatchKeeps(f, owner, picked, channels, now);
        }
      case Settle(h, response, now) => SettleKeepsFleet(f, h, response, now);
      case Forget(h) =>
        forall k: Handle ensures HandleLaw(Act(f, move), k) {
          assert HandleLaw(f, k);
        }
        forall d: nat ensures PendingLaw(Act(f, move), d) {
          assert PendingLaw(f, d);
        }
    }
  }

  /** A delivery waiting for another attempt has had fewer than six. */
  lemma PendingHasAttemptsLeft(moves: seq<Move>, d: nat)
    ensures var book := ActAll(NO_FLEET, moves).book;
      d < |book.deliveries| && book.deliveries[d].state.DeliveryPending? ==> book.deliveries[d].attempts < MAX_ATTEMPTS
  {
    FleetReached(moves);
    assert PendingLaw(ActAll(NO_FLEET, moves), d);
  }

  /** A handle that a later claim has superseded can settle nothing. */
  lemma SupersededIsFenced(moves: seq<Move>, h: Handle, response: Response, now: int)
    requires h in ActAll(NO_FLEET, moves).handles
    ensures h.delivery < |ActAll(NO_FLEET, moves).book.deliveries|
    ensures h.attempt != ActAll(NO_FLEET, moves).book.deliveries[h.delivery].attempts ==>
      Act(ActAll(NO_FLEET, moves), Settle(h, response, now)).book == ActAll(NO_FLEET, moves).book
  {
    FleetReached(moves);
    assert HandleLaw(ActAll(NO_FLEET, moves), h);
  }

  /** One move of a fleet is one entry of its book, or none. */
  lemma ActKeepsRows(f: Fleet, move: Move)
    requires BookInv(f.book)
    ensures RowsKept(f.book.deliveries, Act(f, move).book.deliveries)
  {
    match move
    case Background(entry) => WriteKeeps(f.book, entry);
    case ClaimBatch(owner, picked, channels, now) => WriteKeeps(f.book, EClaim(owner, picked, CLAIM_LEASE, channels, now));
    case Settle(h, response, now) =>
      var verdict := Judge(response, h.attempt, now);
      if verdict.Sent? {
        WriteKeeps(f.book, EComplete(h.delivery, h.owner, now));
      } else {
        WriteKeeps(f.book, EFail(h.delivery, h.owner, h.attempt, MAX_ATTEMPTS, verdict.retryAt, verdict.permanent));
      }
    case Forget(h) =>
  }

  lemma {:induction false} RowsAlong(moves: seq<Move>, i: nat)
    requires i <= |moves|
    ensures RowsKept(ActAll(NO_FLEET, moves[..i]).book.deliveries, ActAll(NO_FLEET, moves).book.deliveries)
  {
    if i == |moves| {
      assert moves[..i] == moves;
    } else {
      var shorter := moves[..|moves| - 1];
      assert shorter[..i] == moves[..i];
      RowsAlong(shorter, i);
      FleetReached(shorter);
      var f := ActAll(NO_FLEET, shorter);
      ActKeepsRows(f, moves[|moves| - 1]);
      RowsKeptTransitive(ActAll(NO_FLEET, moves[..i]).book.deliveries, f.book.deliveries, ActAll(NO_FLEET, moves).book.deliveries);
    }
  }

  /** The handles a move hands out. */
  function GrantedBy(f: Fleet, move: Move): set<Handle> {
    if move.ClaimBatch? && Idle(f, move.owner) then Granted(f.book, move.owner, move.picked, move.channels, move.now) else {}
  }

  /** Along every run each claim of a delivery gets a strictly larger attempt number than every claim before it. */
  lemma ClaimsAreNumbered(moves: seq<Move>, i: nat, j: nat, earlier: Handle, later: Handle)
    requires i < j < |moves| && earlier.delivery == later.delivery
    requires earlier in GrantedBy(ActAll(NO_FLEET, moves[..i]), moves[i])
    requires later in GrantedBy(ActAll(NO_FLEET, moves[..j]), moves[j])
    ensures earlier.attempt < later.attempt
  {
    var claimed, before := ActAll(NO_FLEET, moves[..i + 1]), ActAll(NO_FLEET, moves[..j]);
    assert moves[..i + 1][..i] == moves[..i] && moves[..j][..i + 1] == moves[..i + 1];
    RowsAlong(moves[..j], i + 1);
    assert claimed.book.deliveries[earlier.delivery].attempts == earlier.attempt;
    assert KeptDelivery(claimed.book.deliveries, before.book.deliveries, earlier.delivery);
  }

  // ---- The bound, for the store alone ----

  predicate BelowLaw(book: Book, cap: nat, d: nat) {
    d < |book.deliveries| && book.deliveries[d].state.DeliveryPending? ==> book.deliveries[d].attempts < cap
  }

  /** No delivery waits for an attempt beyond the cap. */
  ghost predicate Below(book: Book, cap: nat) {
    forall d :: BelowLaw(book, cap, d)
  }

  /** The caller holds the lease of a delivery that has used up its attempts, and reports a retryable failure of an earlier one. */
  predicate Reopens(book: Book, entry: Entry, cap: nat) {
    && entry.EFail? && LeasedBy(book, entry.delivery, entry.owner)
    && !entry.permanent && entry.attempt < entry.maxAttempts
    && book.deliveries[entry.delivery].attempts >= cap
  }

  /** Exactly which store calls keep the bound. */
  lemma BoundKeptIff(book: Book, entry: Entry, cap: nat)
    requires BookInv(book) && Below(book, cap) && cap > 0
    ensures Below(Write(book, entry), cap) <==> !Reopens(book, entry, cap)
  {
    var after := Write(book, entry);
    if Reopens(book, entry, cap) {
      assert !BelowLaw(after, cap, entry.delivery);
    } else {
      forall d: nat ensures BelowLaw(after, cap, d) {
        assert BelowLaw(book, cap, d);
        if entry.ECreate? || entry.EReconcile? {
          BackgroundRow(book, entry, d);
        }
      }
    }
  }

  /** Along every history of store calls the bound holds throughout exactly when no call reopens an exhausted delivery. */
  lemma {:induction false} BoundHoldsIff(entries: seq<Entry>, cap: nat)
    requires cap > 0
    ensures (forall k :: 0 <= k <= |entries| ==> BelowAt(entries, cap, k)) <==> (forall k :: 0 <= k < |entries| ==> !ReopensAt(entries, cap, k))
  {
    if entries == [] {
      assert forall k :: 0 <= k <= 0 ==> entries[..k] == [];
      assert forall d :: BelowLaw(EMPTY_BOOK, cap, d);
    } else {
      var last := |entries| - 1;
      var shorter := entries[..last];
      BoundHoldsIff(shorter, cap);
      forall k | 0 <= k <= last ensures BelowAt(shorter, cap, k) == BelowAt(entries, cap, k) && (k < last ==> ReopensAt(shorter, cap, k) == ReopensAt(entries, cap, k)) {
        assert shorter[..k] == entries[..k];
      }
      assert entries[..|entries|] == entries && entries[..last] == shorter;
      CacheIsAggregate(shorter);
      if forall k :: 0 <= k <= last ==> BelowAt(entries, cap, k) {
        assert BelowAt(entries, cap, last);
        BoundKeptIff(WriteAll(EMPTY_BOOK, shorter), entries[last], cap);
        assert BelowAt(entries, cap, last + 1) <==> !ReopensAt(entries, cap, last);
        forall k | 0 <= k < last ensures !ReopensAt(entries, cap, k) {
          assert !ReopensAt(shorter, cap, k);
        }
      } else {
        var k :| 0 <= k <= last && !BelowAt(entries, cap, k);
        assert !BelowAt(shorter, cap, k);
        var n :| 0 <= n < last && ReopensAt(shorter, cap, n);
        assert ReopensAt(entries, cap, n);
      }
    }
  }

  ghost predicate BelowAt(entries: seq<Entry>, cap: nat, k: nat)
    requires k <= |entries|
  {
    Below(WriteAll(EMPTY_BOOK, entries[..k]), cap)
  }

  predicate ReopensAt(entries: seq<Entry>, cap: nat, k: nat)
    requires k < |entries|
  {
    Reopens(WriteAll(EMPTY_BOOK, entries[..k]), entries[k], cap)
  }

  /** Such a history exists: a stale attempt number reopens a delivery after six claims. */
  lemma StaleAttemptReopens(owner: Id)
    ensures exists entries :: WriteAll(EMPTY_BOOK, entries) == Book([AlertRow(AlertPending, None)],
      [DeliveryRow(0, Webhook, DeliveryPending, 6, 1000, None, None, None)])
  {
    var create := [ECreate([Webhook], 0)];
    var after := AfterClaims(owner, 0);
    assert WriteAll(EMPTY_BOOK, create) == after by {
      assert create[..0] == [];
      assert AddChannels([], 0, [Webhook], 0) == [NewDelivery(0, Webhook, 0)];
    }
    var entries := ClaimSixTimes(owner, create, 0);
    var fail := EFail(0, owner, 1, MAX_ATTEMPTS, 1000, false);
    var all := entries + [fail];
    assert all[..|all| - 1] == entries;
    FailReopens(owner);
    assert WriteAll(EMPTY_BOOK, all) == Fail(AfterClaims(owner, 6), 0, owner, 1, MAX_ATTEMPTS, 1000, false);
  }

  /** One webhook delivery after `k` claims by the same owner. */
  function AfterClaims(owner: Id, k: nat): Book {
    Book([AlertRow(AlertPending, None)],
         [if k == 0 then NewDelivery(0, Webhook, 0)
          else DeliveryRow(0, Webhook, DeliveryState.Leased, k, 0, Some(owner), Some(100 * k + 45), None)])
  }

  lemma FailReopens(owner: Id)
    ensures Fail(AfterClaims(owner, 6), 0, owner, 1, MAX_ATTEMPTS, 1000, false) ==
      Book([AlertRow(AlertPending, None)], [DeliveryRow(0, Webhook, DeliveryPending, 6, 1000, None, None, None)])
  {
    var after := Fail(AfterClaims(owner, 6), 0, owner, 1, MAX_ATTEMPTS, 1000, false);
    assert after.deliveries[0].alert == 0 && Open(after.deliveries[0]);
    assert Aggregate(after.deliveries, 0) == AlertRow(AlertPending, None);
  }

  lemma {:induction false} ClaimSixTimes(owner: Id, entries: seq<Entry>, k: nat) returns (more: seq<Entry>)
    requires k <= 6 && WriteAll(EMPTY_BOOK, entries) == AfterClaims(owner, k)
    ensures WriteAll(EMPTY_BOOK, more) == AfterClaims(owner, 6)
    decreases 6 - k
  {
    if k == 6 {
      more := entries;
    } else {
      var claim := EClaim(owner, {0}, CLAIM_LEASE, [Webhook], 100 * (k + 1));
      assert (entries + [claim])[..|entries|] == entries;
      assert Claim(AfterClaims(owner, k), owner, {0}, CLAIM_LEASE, [Webhook], 100 * (k + 1)).deliveries == AfterClaims(owner, k + 1).deliveries;
      assert WriteAll(EMPTY_BOOK, entries + [claim]) == AfterClaims(owner, k + 1);
      more := ClaimSixTimes(owner, entries + [claim], k + 1);
    }
  }
}

/**
 The subscription lifecycle over its two stores: the subscription table and the entitlement
 table. Every operation is a transaction: on an error nothing is written. A subscription's id is
 its position in the table, so a later row of a user is a more recently created one.
 */
module Lifecycle {
  import opened GoInt
  import opened Wrappers
  import opened Entitlements
  import opened Subscriptions

  datatype Price = Price(productId: ProductId, cycleDays: Option<int>)

  /** Products map to the set of entitlement names in their specification. */
  datatype Catalog = Catalog(prices: map<PriceId, Price>, products: map<ProductId, set<string>>)

  datatype DB = DB(subs: seq<Subscription>, windows: Table, clock: Time)

  datatype Error =
    | NotFound
    | NoSuchPrice
    | NoSuchProduct
    | NoBillingCycle
    | AlreadyActive
    | ActiveIndexViolation
    | EntitlementConflict(error: GrantError)
    | NoPeriodEnd
    | PeriodAlreadyOver
    | NotAnOrder

  /** What can happen to an existing subscription: lifecycle operations, then CCBill notifications. */
  datatype Change =
    | Renew
    | Cancel(kind: CancelType, feedback: Option<string>, immediate: bool)
    | Expire
    | Fail
    | Upgrade(priceId: PriceId)
    | ChangeBillingDate(date: Time)
    | Reactivate(renewal: Option<Time>)
    | Refund(terminate: bool, reason: Option<string>)
    | Chargeback(detail: string)

  datatype Op =
    | Subscribe(user: UserId, priceId: PriceId, processor: Processor)
    | Create(user: UserId, priceId: PriceId, processor: Processor, order: seq<string>)
    | On(sid: SubId, change: Change)
    | BuyDays(user: UserId, name: string, days: int, payment: nat)

  const START := DB([], [], ZERO_TIME + 1)

  /** A product without a specification still grants "premium". */
  function EntitlementNames(spec: set<string>): set<string> {
    if spec == {} then {"premium"} else spec
  }

  predicate KnownPrice(cat: Catalog, p: PriceId) {
    p in cat.prices && cat.prices[p].productId in cat.products
  }

  function NamesOf(cat: Catalog, p: PriceId): set<string> {
    if KnownPrice(cat, p) then EntitlementNames(cat.products[cat.prices[p].productId]) else {}
  }

  /** Go visits a map in any order: a list of exactly these names, each once. */
  predicate Enumerates(order: seq<string>, names: set<string>) {
    |order| == |names| && (forall n :: n in names ==> n in order) && (forall i :: 0 <= i < |order| ==> order[i] in names)
  }

  /** The most recently created subscription of a user. */
  function LatestByUser(subs: seq<Subscription>, user: UserId): (r: Option<SubId>)
    ensures r.Some? ==> r.value < |subs| && subs[r.value].user == user && forall i :: r.value < i < |subs| ==> subs[i].user != user
    ensures r.None? ==> forall i :: 0 <= i < |subs| ==> subs[i].user != user
  {
    if subs == [] then None
    else if subs[|subs| - 1].user == user then Some(|subs| - 1)
    else LatestByUser(subs[..|subs| - 1], user)
  }

  predicate ActiveElsewhere(subs: seq<Subscription>, sid: SubId, user: UserId) {
    exists i :: 0 <= i < |subs| && i != sid && subs[i].user == user && subs[i].status == Active
  }

  /** Writes a row back under the unique index of one active subscription per user. */
  function Save(db: DB, sid: SubId, row: Subscription): Result<DB, Error>
    requires sid < |db.subs|
  {
    if row.status == Active && ActiveElsewhere(db.subs, sid, row.user) then Err(ActiveIndexViolation)
    else Ok(db.(subs := db.subs[sid := row]))
  }

  /** The windows after one entitlement name of a new membership is granted. */
  function GrantOne(windows: Table, user: UserId, sid: SubId, name: string, now: Time): Result<Table, GrantError> {
    if ExistsBySource(windows, FromSubscription(sid), name) then Ok(windows) else
    var finite := GetLatestFiniteActive(windows, user, name, now);
    var start := if finite.Some? then finite.value.endAt.value else now;
    Insert(windows, Window(user, name, start, None, FromSubscription(sid), None))
  }

  function GrantAll(windows: Table, user: UserId, sid: SubId, names: seq<string>, now: Time): Result<Table, GrantError> {
    if names == [] then Ok(windows) else
    match GrantAll(windows, user, sid, names[..|names| - 1], now)
    case Err(e) => Err(e)
    case Ok(granted) => GrantOne(granted, user, sid, names[|names| - 1], now)
  }

  datatype Enrollment = Enrollment(db: DB, sid: SubId)

  /** The subscription table after a membership is created: the user's latest row reused, or a new row. */
  function Enrolled(cat: Catalog, db: DB, user: UserId, priceId: PriceId, processor: Processor, now: Time): Result<Enrollment, Error>
    requires priceId in cat.prices
  {
    var cycle := cat.prices[priceId].cycleDays;
    match LatestByUser(db.subs, user)
    case Some(sid) =>
      if db.subs[sid].status == Active then Err(AlreadyActive) else
      (match Save(db, sid, CreatedRow(db.subs[sid], priceId, processor, cycle, now))
       case Ok(saved) => Ok(Enrollment(saved, sid))
       case Err(e) => Err(e))
    case None =>
      Ok(Enrollment(db.(subs := db.subs + [CreatedRow(PendingRow(user, priceId, processor), priceId, processor, cycle, now)]), |db.subs|))
  }

  function CreateMembership(cat: Catalog, db: DB, user: UserId, priceId: PriceId, processor: Processor,
                            order: seq<string>, now: Time): Result<DB, Error> {
    if priceId !in cat.prices then Err(NoSuchPrice) else
    match Enrolled(cat, db, user, priceId, processor, now)
    case Err(e) => Err(e)
    case Ok(Enrollment(enrolled, sid)) =>
      if cat.prices[priceId].productId !in cat.products then Err(NoSuchProduct)
      else if !Enumerates(order, NamesOf(cat, priceId)) then Err(NotAnOrder)
      else
        match GrantAll(enrolled.windows, user, sid, order, now)
        case Err(e) => Err(EntitlementConflict(e))
        case Ok(granted) => Ok(enrolled.(windows := granted))
  }

  /**
   The row write of an operation on an existing subscription, with the windows it ends. An error
   while ending them is only logged, but it spoils the transaction: the row is not written either.
   */
  function SaveAndEnd(db: DB, sid: SubId, row: Subscription, end: Option<Time>, now: Time): Result<DB, Error>
    requires sid < |db.subs|
  {
    match Save(db, sid, row)
    case Err(e) => Err(e)
    case Ok(saved) =>
      if end.None? then Ok(saved) else
      match EndActive(saved.windows, FromSubscription(sid), end.value, now)
      case Err(e) => Err(EntitlementConflict(e))
      case Ok(ended) => Ok(saved.(windows := ended))
  }

  /** When a cancellation ends the windows, and at what time. */
  function CancelEnd(s: Subscription, immediate: bool, now: Time): Option<Time> {
    if immediate then Some(now)
    else if s.periodEnd.Some? && s.periodEnd.value < now then s.periodEnd
    else None
  }

  predicate FailsOut(s: Subscription) {
    Attempts(s) + 1 >= MAX_DUNNING_FAILURES
  }

  function ReactivatedRow(s: Subscription, renewal: Option<Time>, now: Time): Subscription {
    var open := s.(status := Active, cancelledAt := None, cancelType := None, cancelFeedback := None, endedAt := None);
    if renewal.Some? then open.(periodEnd := renewal, periodStart := Some(now)) else open
  }

  function TerminatedRow(s: Subscription, feedback: Option<string>, now: Time): Subscription {
    s.(status := Cancelled, cancelType := Some(ByMerchant), cancelledAt := Some(now),
       cancelFeedback := if feedback.Some? then feedback else s.cancelFeedback)
  }

  /** The transaction of one change of one subscription. */
  function TryChange(cat: Catalog, db: DB, sid: SubId, change: Change, now: Time): Result<DB, Error> {
    if sid >= |db.subs| then Err(NotFound) else
    var s := db.subs[sid];
    match change
    case Renew =>
      if s.priceId !in cat.prices then Err(NoSuchPrice)
      else if cat.prices[s.priceId].cycleDays.None? then Err(NoBillingCycle)
      else Save(db, sid, RenewedRow(s, cat.prices[s.priceId].cycleDays.value, now))
    case Cancel(kind, feedback, immediate) =>
      SaveAndEnd(db, sid, CancelledRow(s, kind, feedback, immediate, now), CancelEnd(s, immediate, now), now)
    case Expire =>
      SaveAndEnd(db, sid, ExpiredRow(s, now), Some(now), now)
    case Fail =>
      SaveAndEnd(db, sid, FailedRow(s, now), if FailsOut(s) then Some(now) else None, now)
    case Upgrade(priceId) =>
      if priceId !in cat.prices then Err(NoSuchPrice)
      else if cat.prices[priceId].cycleDays.None? then Err(NoBillingCycle)
      else
        var row := RenewedRow(s, cat.prices[priceId].cycleDays.value, now).(priceId := priceId);
        if row.periodEnd.value < now then Err(PeriodAlreadyOver) else Save(db, sid, row)
    case ChangeBillingDate(date) =>
      Save(db, sid, s.(periodEnd := Some(date)))
    case Reactivate(renewal) =>
      Save(db, sid, ReactivatedRow(s, renewal, now))
    case Refund(terminate, reason) =>
      if !terminate then Save(db, sid, s)
      else
        var reset := ResetPeriods(s, now);
        if reset.None? then Err(NoPeriodEnd)
        else SaveAndEnd(db, sid, TerminatedRow(reset.value, reason, now), Some(now), now)
    case Chargeback(detail) =>
      var reset := ResetPeriods(s, now);
      if reset.None? then Err(NoPeriodEnd)
      else SaveAndEnd(db, sid, TerminatedRow(reset.value, Some(detail), now).(endedAt := Some(now)), Some(now), now)
  }

  /** The transaction of one operation at one time. */
  function Try(cat: Catalog, db: DB, op: Op, now: Time): Result<DB, Error> {
    match op
    case Subscribe(user, priceId, processor) =>
      var latest := LatestByUser(db.subs, user);
      if priceId !in cat.prices then Err(NoSuchPrice)
      else if latest.Some? && db.subs[latest.value].status == Active then Err(AlreadyActive)
      else Ok(db.(subs := db.subs + [PendingRow(user, priceId, processor)]))
    case Create(user, priceId, processor, order) =>
      CreateMembership(cat, db, user, priceId, processor, order, now)
    case On(sid, change) =>
      TryChange(cat, db, sid, change, now)
    case BuyDays(user, name, days, payment) =>
      var rows := AppendedRows(db.windows, user, name, days, OneOff(Some(payment)), now);
      if rows.Err? then Err(EntitlementConflict(rows.error)) else Ok(db.(windows := rows.value))
  }

  /** A step of a run: the clock never goes back, and a failed transaction changes nothing else. */
  datatype Event = Event(op: Op, at: Time)

  function Now(db: DB, e: Event): Time {
    if e.at < db.clock then db.clock else e.at
  }

  function Apply(cat: Catalog, db: DB, e: Event): DB {
    var now := Now(db, e);
    match Try(cat, db, e.op, now)
    case Ok(after) => after.(clock := now)
    case Err(_) => db.(clock := now)
  }

  function Exec(cat: Catalog, db: DB, events: seq<Event>): DB {
    if events == [] then db else Apply(cat, Exec(cat, db, events[..|events| - 1]), events[|events| - 1])
  }

  /** The service object: each method loads the record, changes it step by step and writes it back. */
  class SubscriptionLifecycleService {
    const cat: Catalog
    var db: DB

    constructor (cat: Catalog)
      ensures this.cat == cat && db == START
    {
      this.cat := cat;
      db := START;
    }

    /** The stored result of one operation: all of it, or none of it. `ok` says whether it is stored. */
    twostate predicate Transacted(op: Op, now: Time, ok: bool)
      reads this
    {
      && (ok <==> Try(cat, old(db), op, now).Ok?)
      && db == if ok then Try(cat, old(db), op, now).value else old(db)
    }

    method WriteBack(sid: SubId, record: Subscription) returns (ok: bool)
      requires sid < |db.subs|
      modifies this
      ensures ok <==> Save(old(db), sid, record).Ok?
      ensures db == if ok then Save(old(db), sid, record).value else old(db)
    {
      ok := !(record.status == Active && ActiveElsewhere(db.subs, sid, record.user));
      if ok {
        db := db.(subs := db.subs[sid := record]);
      }
    }

    method EndActiveBySubscription(sid: SubId, endAt: Time, now: Time) returns (ok: bool)
      modifies this
      ensures ok <==> EndActive(old(db).windows, FromSubscription(sid), endAt, now).Ok?
      ensures db == if ok then old(db).(windows := EndActive(old(db).windows, FromSubscription(sid), endAt, now).value) else old(db)
    {
      var ended := EndActive(db.windows, FromSubscription(sid), endAt, now);
      ok := ended.Ok?;
      if ok {
        db := db.(windows := ended.value);
      }
    }

    /** Reuses the user's latest row, or inserts a new one; an active row refuses. */
    method Enroll(user: UserId, priceId: PriceId, processor: Processor, now: Time) returns (ok: bool, sid: SubId)
      requires priceId in cat.prices
      modifies this
      ensures ok <==> Enrolled(cat, old(db), user, priceId, processor, now).Ok?
      ensures !ok ==> db == old(db)
      ensures ok ==> Enrollment(db, sid) == Enrolled(cat, old(db), user, priceId, processor, now).value
    {
      var cycle := cat.prices[priceId].cycleDays;
      var latest := LatestByUser(db.subs, user);
      sid := |db.subs|;
      if latest.Some? && db.subs[latest.value].status == Active {
        return false, sid;
      }
      var record := if latest.Some? then db.subs[latest.value] else PendingRow(user, priceId, processor);
      var days := if cycle.Some? && cycle.value > 0 then cycle.value else DEFAULT_CYCLE_DAYS;
      record := record.(priceId := priceId, status := Active, processor := processor);
      record := record.(periodStart := Some(now), periodEnd := Some(now + DaysDuration(days)));
      record := record.(startedAt := now);
      record := record.(cancelledAt := None, cancelType := None, cancelFeedback := None, endedAt := None);
      assert record == CreatedRow(if latest.Some? then db.subs[latest.value] else PendingRow(user, priceId, processor),
                                  priceId, processor, cycle, now);
      if latest.Some? {
        sid := latest.value;
        ok := WriteBack(sid, record);
      } else {
        db := db.(subs := db.subs + [record]);
        ok := true;
      }
    }

    /** Grants the names one by one, skipping those the subscription already holds. */
    method GrantNames(user: UserId, sid: SubId, order: seq<string>, now: Time) returns (ok: bool)
      modifies this
      ensures ok <==> GrantAll(old(db).windows, user, sid, order, now).Ok?
      ensures ok ==> db == old(db).(windows := GrantAll(old(db).windows, user, sid, order, now).value)
    {
      ghost var before := db;
      for k := 0 to |order|
        invariant GrantAll(before.windows, user, sid, order[..k], now) == Ok(db.windows)
        invariant db == before.(windows := db.windows)
      {
        assert order[..k + 1][..k] == order[..k];
        if !ExistsBySource(db.windows, FromSubscription(sid), order[k]) {
          var start := now;
          var finite := GetLatestFiniteActive(db.windows, user, order[k], now);
          if finite.Some? {
            start := finite.value.endAt.value;
          }
          var w := Window(user, order[k], start, None, FromSubscription(sid), None);
          if Conflicts(db.windows, w) {
            GrantErrorIsFinal(before.windows, user, sid, order, k + 1, now);
            return false;
          }
          db := db.(windows := db.windows + [w]);
        }
      }
      assert order[..|order|] == order;
      ok := true;
    }

    method Create(user: UserId, priceId: PriceId, processor: Processor, order: seq<string>, now: Time) returns (ok: bool)
      modifies this
      ensures Transacted(Op.Create(user, priceId, processor, order), now, ok)
    {
      var before := db;
      if priceId !in cat.prices {
        return false;
      }
      var enrolled, sid := Enroll(user, priceId, processor, now);
      ok := false;
      if enrolled && cat.prices[priceId].productId in cat.products && Enumerates(order, NamesOf(cat, priceId)) {
        ok := GrantNames(user, sid, order, now);
      }
      if !ok {
        db := before;
      }
    }

    method Renew(sid: SubId, now: Time) returns (ok: bool)
      modifies this
      ensures Transacted(On(sid, Change.Renew), now, ok)
    {
      if sid >= |db.subs| || db.subs[sid].priceId !in cat.prices || cat.prices[db.subs[sid].priceId].cycleDays.None? {
        return false;
      }
      var record := db.subs[sid];
      var cycle := DaysDuration(cat.prices[record.priceId].cycleDays.value);
      var start := now;
      if record.periodEnd.Some? && record.periodEnd.value != ZERO_TIME {
        start := record.periodEnd.value;
      }
      record := record.(status := Active);
      record := record.(periodStart := Some(start), periodEnd := Some(start + cycle));
      record := record.(cancelledAt := None, cancelType := None, cancelFeedback := None, endedAt := None);
      ok := WriteBack(sid, record);
    }

    method Cancel(sid: SubId, kind: CancelType, feedback: Option<string>, immediate: bool, now: Time) returns (ok: bool)
      modifies this
      ensures Transacted(On(sid, Change.Cancel(kind, feedback, immediate)), now, ok)
    {
      if sid >= |db.subs| {
        return false;
      }
      var before := db;
      var record := db.subs[sid].(status := Cancelled, cancelledAt := Some(now), cancelType := Some(kind));
      if feedback.Some? {
        record := record.(cancelFeedback := feedback);
      }
      if immediate {
        record := record.(endedAt := Some(now), periodEnd := Some(now));
      } else if record.periodEnd.None? {
        record := record.(endedAt := Some(now));
      }
      ok := WriteBack(sid, record);
      if immediate || (record.periodEnd.Some? && record.periodEnd.value < now) {
        var endAt := now;
        if !immediate && record.periodEnd.Some? {
          endAt := record.periodEnd.value;
        }
        ok := EndActiveBySubscription(sid, endAt, now);
        if !ok {
          db := before;
        }
      }
    }

    method Expire(sid: SubId, now: Time) returns (ok: bool)
      modifies this
      ensures Transacted(On(sid, Change.Expire), now, ok)
    {
      if sid >= |db.subs| {
        return false;
      }
      var before := db;
      var record := db.subs[sid].(status := Cancelled, endedAt := Some(now));
      ok := WriteBack(sid, record);
      ok := EndActiveBySubscription(sid, now, now);
      if !ok {
        db := before;
      }
    }

    method Fail(sid: SubId, now: Time) returns (ok: bool)
      modifies this
      ensures Transacted(On(sid, Change.Fail), now, ok)
    {
      if sid >= |db.subs| {
        return false;
      }
      var before := db;
      var record := db.subs[sid].(status := PastDue);
      record := record.(lastRetryAt := Some(now));
      if record.retryAttempts.None? {
        record := record.(retryAttempts := Some(1));
      } else {
        record := record.(retryAttempts := Some(record.retryAttempts.value + 1));
      }
      if record.retryAttempts.value >= MAX_DUNNING_FAILURES {
        record := record.(status := Cancelled, endedAt := Some(now));
      } else {
        record := record.(nextRetryAt := Some(now + DUNNING_INTERVAL));
      }
      ok := WriteBack(sid, record);
      if record.status == Cancelled {
        ok := EndActiveBySubscription(sid, now, now);
        if !ok {
          db := before;
        }
      }
    }
  }

  lemma GrantErrorIsFinal(windows: Table, user: UserId, sid: SubId, names: seq<string>, k: nat, now: Time)
    requires k <= |names| && GrantAll(windows, user, sid, names[..k], now).Err?
    ensures GrantAll(windows, user, sid, names, now).Err?
    decreases |names|
  {
    if k < |names| {
      assert names[..|names| - 1][..k] == names[..k];
      GrantErrorIsFinal(windows, user, sid, names[..|names| - 1], k, now);
    } else {
      assert names[..k] == names;
    }
  }
}

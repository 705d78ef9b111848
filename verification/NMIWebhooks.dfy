/**
 NMI sale notifications. A recurring sale creates or renews the membership and then records the
 payment; a failed one counts against the subscription. Deliveries go through the deduplication of
 webhook events.
 */
module NMIWebhooks {
  import opened GoInt
  import opened Wrappers
  import opened Strings
  import opened Entitlements
  import opened Subscriptions
  import opened Lifecycle
  import RetryCounters
  import Payments
  import Idempotency
  import Deduplication

  datatype Reference = Blank | Unknown | Known(sid: SubId)

  /**
   The body of a notification. `fallback` is the price amount used when the amount does not parse,
   `order` the order in which entitlement names are visited, and `lookupFails` a database fault
   while the payment is looked up. `rollbackReported` says whether the driver reports a commit that
   the database turns into a rollback.
   */
  datatype Sale = Sale(reference: Reference, recurring: bool, transactionId: string, detailId: string, amount: Option<real>,
                       fallback: real, order: seq<string>, lookupFails: bool, rollbackReported: bool)

  datatype World = World(db: DB, log: Payments.Log)

  /** The transaction id of the body, or of its details when that is blank. */
  function TransactionOf(sale: Sale): string {
    if TrimSpace(sale.transactionId) != "" then TrimSpace(sale.transactionId) else TrimSpace(sale.detailId)
  }

  function AmountOf(sale: Sale): real {
    if sale.amount.Some? then sale.amount.value
    else if sale.fallback > 0.0 then sale.fallback
    else 0.0
  }

  function PaymentOf(s: Subscription, sale: Sale): Payments.Draft {
    Payments.Draft(s.user, s.priceId, NMI, TransactionOf(sale), AmountOf(sale), None)
  }

  /** A pending subscription is created, any other is renewed. */
  function MembershipOp(s: Subscription, sid: SubId, sale: Sale): Op {
    if s.status == Pending then Create(s.user, s.priceId, NMI, sale.order) else On(sid, Renew)
  }

  /** The stores after a sale, and whether the handler reports success. */
  function AfterSale(cat: Catalog, w: World, sale: Sale, now: Time): (World, bool) {
    if sale.reference.Blank? then (w, false)
    else if !sale.recurring then (w, true)
    else if sale.reference.Unknown? || sale.reference.sid >= |w.db.subs| then (w, false)
    else
      var s := w.db.subs[sale.reference.sid];
      AfterMembership(w, s, sale, Try(cat, w.db, MembershipOp(s, sale.reference.sid, sale), now))
  }

  /** The payment is recorded only once the membership is. */
  function AfterMembership(w: World, s: Subscription, sale: Sale, membership: Result<DB, Lifecycle.Error>): (World, bool) {
    if membership.Err? then (w, false)
    else if TransactionOf(sale) == "" then (World(membership.value, w.log), true)
    else if sale.lookupFails then (World(membership.value, w.log), false)
    else (World(membership.value, AfterPayment(w.log, PaymentOf(s, sale))), true)
  }

  /** A payment is recorded when its transaction is new and its amount positive; a failing insert is only logged. */
  function AfterPayment(log: Payments.Log, p: Payments.Draft): Payments.Log {
    var after := Payments.Created(log, p);
    if p.amount > 0.0 && after.Some? then after.value else log
  }

  /** A failed sale counts against the subscription, unless its transaction is rolled back; one that is not ours is ignored. */
  function AfterFailedSale(cat: Catalog, db: DB, sale: Sale, now: Time): (DB, bool) {
    if sale.reference.Blank? then (db, false)
    else if !sale.recurring || sale.reference.Unknown? || sale.reference.sid >= |db.subs| then (db, true)
    else
      var after := Try(cat, db, On(sale.reference.sid, Fail), now);
      if after.Ok? then (after.value, true) else (db, !sale.rollbackReported)
  }

  class NMIWebhookService {
    const lifecycle: SubscriptionLifecycleService
    const payments: Payments.PaymentService

    constructor (lifecycle: SubscriptionLifecycleService, payments: Payments.PaymentService)
      ensures this.lifecycle == lifecycle && this.payments == payments
    {
      this.lifecycle := lifecycle;
      this.payments := payments;
    }

    method RecordPayment(s: Subscription, sale: Sale)
      modifies payments
      ensures payments.log == AfterPayment(old(payments.log), PaymentOf(s, sale))
    {
      var known := payments.GetByTransactionID(NMI, TransactionOf(sale));
      if known.Some? {
        return;
      }
      var amount := if sale.amount.Some? then sale.amount.value else if sale.fallback > 0.0 then sale.fallback else 0.0;
      if amount > 0.0 {
        var _ := payments.Create(Payments.Draft(s.user, s.priceId, NMI, TransactionOf(sale), amount, None));
      }
    }

    method HandleTransactionSaleFailure(sale: Sale, now: Time) returns (ok: bool)
      modifies lifecycle
      ensures (lifecycle.db, ok) == AfterFailedSale(lifecycle.cat, old(lifecycle.db), sale, now)
    {
      if sale.reference.Blank? {
        return false;
      }
      if !sale.recurring || sale.reference.Unknown? || sale.reference.sid >= |lifecycle.db.subs| {
        return true;
      }
      ok := lifecycle.Fail(sale.reference.sid, now);
      if !ok {
        ok := !sale.rollbackReported;
      }
    }

    method HandleTransactionSaleSuccess(sale: Sale, now: Time) returns (ok: bool)
      modifies lifecycle, payments
      ensures (World(lifecycle.db, payments.log), ok)
           == AfterSale(lifecycle.cat, World(old(lifecycle.db), old(payments.log)), sale, now)
    {
      if sale.reference.Blank? {
        return false;
      }
      if !sale.recurring {
        return true;
      }
      if sale.reference.Unknown? || sale.reference.sid >= |lifecycle.db.subs| {
        return false;
      }
      var sid := sale.reference.sid;
      var s := lifecycle.db.subs[sid];
      if s.status == Pending {
        ok := lifecycle.Create(s.user, s.priceId, NMI, sale.order, now);
      } else {
        ok := lifecycle.Renew(sid, now);
      }
      if !ok || TransactionOf(sale) == "" {
        return;
      }
      if sale.lookupFails {
        return false;
      }
      RecordPayment(s, sale);
    }
  }

  // ---- serial runs

  datatype State = State(rows: Idempotency.Table, world: World)

  /** A sale notification; `recorded` says whether its idempotency record could be updated. */
  datatype Delivery = Delivery(eventType: string, eventId: string, sale: Sale, recorded: bool, at: Time)

  /** Besides deliveries, other parts of the program use the payment ledger and change memberships. */
  datatype Step = Deliver(d: Delivery) | Ledger(call: Payments.Call) | Member(event: Event)

  const PROCESSOR := "nmi"
  const SALE_SUCCESS := "transaction.sale.success"
  const SALE_FAILURE := "transaction.sale.failure"
  const UNSUCCESSFUL := Some("webhook processing failed")

  datatype Kind = Success | Failure | Unsupported

  function KindOf(eventType: string): Kind {
    if eventType == SALE_SUCCESS then Success else if eventType == SALE_FAILURE then Failure else Unsupported
  }

  /** A delivery under the record of its event. */
  datatype Attempt = Attempt(slot: Option<Idempotency.Slot>, kind: Kind, sale: Sale, recorded: bool, at: Time)

  function AttemptOf(d: Delivery): Attempt {
    Attempt(Deduplication.SlotOf(PROCESSOR, d.eventType, d.eventId), KindOf(d.eventType), d.sale, d.recorded, d.at)
  }

  function Handled(cat: Catalog, w: World, kind: Kind, sale: Sale, now: Time): (World, bool) {
    match kind
    case Success => AfterSale(cat, w, sale, now)
    case Failure =>
      var (db, ok) := AfterFailedSale(cat, w.db, sale, now);
      (w.(db := db), ok)
    case Unsupported => (w, false)
  }

  function AfterAttempt(cat: Catalog, s: State, a: Attempt): State {
    if !Deduplication.MustRun(s.rows, a.slot) then s else
    var (world, ok) := Handled(cat, s.world, a.kind, a.sale, a.at);
    State(Deduplication.Delivered(s.rows, a.slot, if ok then None else UNSUCCESSFUL, None, a.recorded), world)
  }

  function AfterDelivery(cat: Catalog, s: State, d: Delivery): State {
    AfterAttempt(cat, s, AttemptOf(d))
  }

  function Apply(cat: Catalog, s: State, step: Step): State {
    match step
    case Deliver(d) => AfterDelivery(cat, s, d)
    case Ledger(call) => s.(world := s.world.(log := Payments.Apply(s.world.log, call)))
    case Member(event) => s.(world := s.world.(db := Lifecycle.Apply(cat, s.world.db, event)))
  }

  function Exec(cat: Catalog, s: State, steps: seq<Step>): State {
    if steps == [] then s else Apply(cat, Exec(cat, s, steps[..|steps| - 1]), steps[|steps| - 1])
  }

  /** No two rows share processor and transaction id. */
  predicate Distinct(log: Payments.Log) {
    forall i, j :: 0 <= i < j < |log| ==> log[i].processor != log[j].processor || log[i].transactionId != log[j].transactionId
  }

  ghost predicate Inv(s: State) {
    Distinct(s.world.log) && Idempotency.DistinctSlots(s.rows)
  }

  lemma HandlerKeepsDistinct(cat: Catalog, w: World, kind: Kind, sale: Sale, now: Time)
    requires Distinct(w.log)
    ensures Distinct(Handled(cat, w, kind, sale, now).0.log)
  {
    if kind.Success? {
      SaleKeepsDistinct(cat, w, sale, now);
    }
  }

  lemma SaleKeepsDistinct(cat: Catalog, w: World, sale: Sale, now: Time)
    requires Distinct(w.log)
    ensures Distinct(AfterSale(cat, w, sale, now).0.log)
  {
    if sale.reference.Known? && sale.reference.sid < |w.db.subs| {
      var s := w.db.subs[sale.reference.sid];
      MembershipKeepsDistinct(w, s, sale, Try(cat, w.db, MembershipOp(s, sale.reference.sid, sale), now));
    }
  }

  lemma MembershipKeepsDistinct(w: World, s: Subscription, sale: Sale, membership: Result<DB, Lifecycle.Error>)
    requires Distinct(w.log)
    ensures Distinct(AfterMembership(w, s, sale, membership).0.log)
  {
  }

  /** What an attempt does to the records of events. */
  lemma AttemptKeepsRows(cat: Catalog, s: State, a: Attempt, slot: Idempotency.Slot)
    requires Inv(s)
    ensures var t := AfterAttempt(cat, s, a);
            && Idempotency.DistinctSlots(t.rows)
            && (Deduplication.HasSucceeded(t.rows, slot) <==>
                  Deduplication.HasSucceeded(s.rows, slot)
                  || (a.slot == Some(slot) && a.recorded && Handled(cat, s.world, a.kind, a.sale, a.at).1))
  {
    var (_, ok) := Handled(cat, s.world, a.kind, a.sale, a.at);
    Deduplication.DeliveryAddsSuccess(s.rows, Deduplication.Attempt(a.slot, if ok then None else UNSUCCESSFUL, None, a.recorded), slot);
  }

  lemma AttemptKeepsInv(cat: Catalog, s: State, a: Attempt)
    requires Inv(s)
    ensures Inv(AfterAttempt(cat, s, a))
  {
    HandlerKeepsDistinct(cat, s.world, a.kind, a.sale, a.at);
    if a.slot.Some? {
      AttemptKeepsRows(cat, s, a, a.slot.value);
    }
  }

  lemma StepKeepsInv(cat: Catalog, s: State, step: Step)
    requires Inv(s)
    ensures Inv(Apply(cat, s, step))
  {
    match step
    case Deliver(d) => AttemptKeepsInv(cat, s, AttemptOf(d));
    case Ledger(call) =>
    case Member(event) =>
  }

  lemma {:induction false} RunKeepsInv(cat: Catalog, s: State, steps: seq<Step>)
    requires Inv(s)
    ensures Inv(Exec(cat, s, steps))
  {
    if steps != [] {
      RunKeepsInv(cat, s, steps[..|steps| - 1]);
      StepKeepsInv(cat, Exec(cat, s, steps[..|steps| - 1]), steps[|steps| - 1]);
    }
  }

  /** Over any run, a transaction has at most one payment row. */
  lemma OnePaymentPerTransaction(cat: Catalog, s: State, steps: seq<Step>, i: nat, j: nat)
    requires Inv(s)
    requires var log := Exec(cat, s, steps).world.log;
             && i < |log| && j < |log|
             && log[i].processor == log[j].processor && log[i].transactionId == log[j].transactionId
    ensures i == j
  {
    RunKeepsInv(cat, s, steps);
  }

  /** After a recurring sale with a transaction id and a positive amount was handled, its payment is there, if it fits the column. */
  lemma HandledSaleIsRecorded(cat: Catalog, w: World, sale: Sale, now: Time)
    requires AfterSale(cat, w, sale, now).1 && sale.recurring && TransactionOf(sale) != "" && AmountOf(sale) > 0.0
    ensures Payments.Recorded(AfterSale(cat, w, sale, now).0.log, NMI, TransactionOf(sale))
       <==> Payments.Recorded(w.log, NMI, TransactionOf(sale)) || Payments.FitsColumn(AmountOf(sale))
  {
    PaymentIsRecorded(w.log, PaymentOf(w.db.subs[sale.reference.sid], sale));
  }

  lemma PaymentIsRecorded(log: Payments.Log, p: Payments.Draft)
    requires p.amount > 0.0
    ensures var after := AfterPayment(log, p);
            && (Payments.Recorded(after, p.processor, p.transactionId)
                <==> Payments.Recorded(log, p.processor, p.transactionId) || Payments.FitsColumn(p.amount))
            && log <= after && |after| <= |log| + 1
            && (Payments.Recorded(log, p.processor, p.transactionId) ==> after == log)
  {
    var after := AfterPayment(log, p);
    if after != log {
      assert after[|log|] == Payments.Stored(p);
    }
  }

  lemma {:induction false} SuccessStays(cat: Catalog, s: State, steps: seq<Step>, slot: Idempotency.Slot)
    requires Inv(s) && Deduplication.HasSucceeded(s.rows, slot)
    ensures Deduplication.HasSucceeded(Exec(cat, s, steps).rows, slot)
  {
    if steps != [] {
      var front, last := Exec(cat, s, steps[..|steps| - 1]), steps[|steps| - 1];
      SuccessStays(cat, s, steps[..|steps| - 1], slot);
      RunKeepsInv(cat, s, steps[..|steps| - 1]);
      if last.Deliver? {
        AttemptKeepsRows(cat, front, AttemptOf(last.d), slot);
      }
    }
  }

  /**
   Once a delivery of an event was handled and recorded, and after whatever happens next, a
   further delivery of that event changes nothing: no row, no membership and no payment.
   */
  lemma RedeliveryChangesNothing(cat: Catalog, s: State, d: Delivery, steps: seq<Step>, again: Delivery)
    requires Inv(s) && d.recorded && Handled(cat, s.world, KindOf(d.eventType), d.sale, d.at).1
    requires Deduplication.SameEvent(again.eventType, again.eventId, d.eventType, d.eventId)
    ensures var t := Exec(cat, AfterDelivery(cat, s, d), steps); AfterDelivery(cat, t, again) == t
  {
    Deduplication.SlotsAgreeIffSameEvent(PROCESSOR, d.eventType, d.eventId, again.eventType, again.eventId);
    AttemptOfSlot(d);
    AttemptOfSlot(again);
    SlotIsDone(cat, s, AttemptOf(d), steps, AttemptOf(again));
  }

  lemma AttemptOfSlot(d: Delivery)
    ensures AttemptOf(d).slot == Deduplication.SlotOf(PROCESSOR, d.eventType, d.eventId)
  {
  }

  lemma SlotIsDone(cat: Catalog, s: State, a: Attempt, steps: seq<Step>, again: Attempt)
    requires Inv(s) && a.slot.Some? && again.slot == a.slot && a.recorded && Handled(cat, s.world, a.kind, a.sale, a.at).1
    ensures var t := Exec(cat, AfterAttempt(cat, s, a), steps); AfterAttempt(cat, t, again) == t
  {
    AttemptKeepsInv(cat, s, a);
    AttemptKeepsRows(cat, s, a, a.slot.value);
    SuccessStays(cat, AfterAttempt(cat, s, a), steps, a.slot.value);
  }

  /** The sale is a recurring one for this subscription. */
  predicate IsFor(sale: Sale, sid: SubId) {
    sale.reference == Known(sid) && sale.recurring
  }

  /**
   A failed sale is counted exactly when its failure is stored. One that is not is still reported as
   handled, as long as the driver does not report the rollback.
   */
  lemma FailedSaleIsCountedExactlyWhen(cat: Catalog, db: DB, sale: Sale, sid: SubId, now: Time)
    requires IsFor(sale, sid) && sid < |db.subs|
    ensures var (after, ok) := AfterFailedSale(cat, db, sale, now);
            && |after.subs| == |db.subs|
            && Attempts(after.subs[sid]) == Attempts(db.subs[sid]) + (if RetryCounters.FailLands(db, sid, now) then 1 else 0)
            && (!RetryCounters.FailLands(db, sid, now) ==> after == db)
            && (ok <==> RetryCounters.FailLands(db, sid, now) || !sale.rollbackReported)
  {
    RetryCounters.FailLandsExactlyWhen(cat, db, sid, now);
  }

  /**
   So a fifth failure that is rolled back unreported is lost for good: its event is recorded as
   handled, and delivering it again, whatever happened in between, does not count it either.
   */
  lemma LostFailureIsNotRedelivered(cat: Catalog, s: State, d: Delivery, sid: SubId, steps: seq<Step>, again: Delivery)
    requires Inv(s) && d.eventType == SALE_FAILURE && d.recorded && IsFor(d.sale, sid) && sid < |s.world.db.subs|
    requires !RetryCounters.FailLands(s.world.db, sid, d.at) && !d.sale.rollbackReported
    requires Deduplication.SameEvent(again.eventType, again.eventId, d.eventType, d.eventId)
    ensures AfterDelivery(cat, s, d).world == s.world
    ensures var t := Exec(cat, AfterDelivery(cat, s, d), steps); AfterDelivery(cat, t, again) == t
  {
    FailedSaleIsCountedExactlyWhen(cat, s.world.db, d.sale, sid, d.at);
    FailureKind(d.eventType);
    RedeliveryChangesNothing(cat, s, d, steps, again);
    LostFailureKeepsWorld(cat, s, AttemptOf(d), sid);
  }

  lemma FailureKind(eventType: string)
    requires eventType == SALE_FAILURE
    ensures KindOf(eventType) == Failure
  {
    assert SALE_FAILURE[17] != SALE_SUCCESS[17];
  }

  lemma LostFailureKeepsWorld(cat: Catalog, s: State, a: Attempt, sid: SubId)
    requires a.kind.Failure? && IsFor(a.sale, sid) && sid < |s.world.db.subs| && !RetryCounters.FailLands(s.world.db, sid, a.at)
    ensures AfterAttempt(cat, s, a).world == s.world
  {
    FailedSaleIsCountedExactlyWhen(cat, s.world.db, a.sale, sid, a.at);
  }
}

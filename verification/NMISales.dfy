/**
 What a sale notification leaves behind, said of the stores alone: the membership it creates or
 renews, who has access after it, and the row it adds to the ledger.
 */
module NMISales {
  import opened GoInt
  import opened Wrappers
  import opened Strings
  import opened Entitlements
  import opened Subscriptions
  import opened Lifecycle
  import opened MembershipAccess
  import opened LifecycleOutcomes
  import opened NMIWebhooks
  import Payments

  /** Only a recurring sale of a subscription we know has any effect; without a reference or a subscription it is refused. */
  lemma OtherSalesChangeNothing(cat: Catalog, w: World, sale: Sale, now: Time)
    requires forall sid: SubId :: sid < |w.db.subs| ==> !IsFor(sale, sid)
    ensures AfterSale(cat, w, sale, now) == (w, !sale.reference.Blank? && !sale.recurring)
  {
    if sale.reference.Known? && sale.recurring && sale.reference.sid < |w.db.subs| {
      assert IsFor(sale, sale.reference.sid);
    }
  }

  /** A failed sale that is not a recurring one of a subscription we know is ignored, and one without a reference refused. */
  lemma OtherFailedSalesAreIgnored(cat: Catalog, db: DB, sale: Sale, now: Time)
    requires forall sid: SubId :: sid < |db.subs| ==> !IsFor(sale, sid)
    ensures AfterFailedSale(cat, db, sale, now) == (db, !sale.reference.Blank?)
  {
    if sale.reference.Known? && sale.recurring && sale.reference.sid < |db.subs| {
      assert IsFor(sale, sale.reference.sid);
    }
  }

  /** The first sale of a pending subscription is handled: one row of the user is active for a cycle, and its product is open. */
  ghost predicate IsCreated(cat: Catalog, before: DB, after: DB, user: UserId, priceId: PriceId, now: Time) {
    exists row: nat :: IsEnrolledIn(before.subs, after.subs, row, user) && CreationIs(cat, before, after, row, user, priceId, NMI, now)
  }

  /**
   A handled first sale, after any run: the user's latest row is active for one cycle, and from now on
   the user is entitled, at every time, to all that the product grants.
   */
  lemma FirstSaleGivesAccess(cat: Catalog, w: World, sale: Sale, sid: SubId, now: Time, name: string, t: Time)
    requires Sound(w.db) && w.db.clock <= now <= t
    requires IsFor(sale, sid) && sid < |w.db.subs| && w.db.subs[sid].status == Pending && AfterSale(cat, w, sale, now).1
    ensures var s, after := w.db.subs[sid], AfterSale(cat, w, sale, now).0.db;
            && IsCreated(cat, w.db, after, s.user, s.priceId, now)
            && (Grants(cat, s.priceId, name) ==> IsEntitled(after.windows, s.user, name, t))
  {
    var s := w.db.subs[sid];
    var op := Op.Create(s.user, s.priceId, NMI, sale.order);
    HandledSaleIsStored(cat, w, sale, sid, now, op);
    CreationOpensTheProduct(cat, w.db, s.user, s.priceId, NMI, sale.order, now);
    var after := Try(cat, w.db, op, now).value;
    var row: nat :| IsEnrolledIn(w.db.subs, after.subs, row, s.user) && CreationIs(cat, w.db, after, row, s.user, s.priceId, NMI, now);
    if Grants(cat, s.priceId, name) {
      StepKeepsSound(cat, w.db, Lifecycle.Event(op, now));
      OpenWindowGivesAccess(Lifecycle.Apply(cat, w.db, Lifecycle.Event(op, now)), row, name, t);
    }
  }

  /** What is handled is stored. */
  lemma HandledSaleIsStored(cat: Catalog, w: World, sale: Sale, sid: SubId, now: Time, op: Op)
    requires IsFor(sale, sid) && sid < |w.db.subs| && AfterSale(cat, w, sale, now).1
    requires op == if w.db.subs[sid].status == Pending then Op.Create(w.db.subs[sid].user, w.db.subs[sid].priceId, NMI, sale.order) else On(sid, Renew)
    ensures Try(cat, w.db, op, now) == Ok(AfterSale(cat, w, sale, now).0.db)
  {
  }

  /**
   A sale of any other subscription extends it by one cycle exactly when nothing refuses the renewal,
   and grants nothing; otherwise it is not handled and nothing changes.
   */
  lemma LaterSaleExtends(cat: Catalog, w: World, sale: Sale, sid: SubId, now: Time)
    requires IsFor(sale, sid) && sid < |w.db.subs| && w.db.subs[sid].status != Pending
    ensures var (after, ok) := AfterSale(cat, w, sale, now);
            if CanRenew(cat, w.db, sid) then IsExtended(cat, w.db, after.db, sid, now) else after == w && !ok
  {
    RenewalExtendsByTheCycle(cat, w.db, sid, now);
  }

  /** The body's transaction id without the blanks around it, or that of its details when it is blank. */
  predicate IsTransaction(sale: Sale, id: string) {
    if TrimSpace(sale.transactionId) == "" then id == TrimSpace(sale.detailId) else id == TrimSpace(sale.transactionId)
  }

  /** The body's amount, or a positive price amount when it has none. */
  predicate IsAmount(sale: Sale, amount: real) {
    match sale.amount
    case Some(given) => amount == given
    case None => if sale.fallback > 0.0 then amount == sale.fallback else amount == 0.0
  }

  /**
   A handled sale adds one row to the ledger: the user and price of the subscription, the transaction
   id and the cents of the amount. It adds none exactly when the id is blank, the ledger has it
   already, the amount is not positive, or it does not fit the column.
   */
  lemma HandledSaleAddsItsPayment(cat: Catalog, w: World, sale: Sale, sid: SubId, now: Time, id: string, amount: real)
    requires IsFor(sale, sid) && sid < |w.db.subs| && AfterSale(cat, w, sale, now).1
    requires IsTransaction(sale, id) && IsAmount(sale, amount)
    ensures IsPaymentAdded(w.log, AfterSale(cat, w, sale, now).0.log, w.db.subs[sid], id, amount)
  {
    var s := w.db.subs[sid];
    AddsItsPayment(w, s, sale, Try(cat, w.db, MembershipOp(s, sid, sale), now), id, amount);
  }

  predicate IsPaymentAdded(before: Payments.Log, after: Payments.Log, s: Subscription, id: string, amount: real) {
    if id == "" || amount <= 0.0 || !Payments.FitsColumn(amount)
       || exists i :: 0 <= i < |before| && before[i].processor == NMI && before[i].transactionId == id
    then after == before
    else after == before + [Payments.Payment(s.user, s.priceId, NMI, id, Payments.Cents(amount), None)]
  }

  lemma AddsItsPayment(w: World, s: Subscription, sale: Sale, membership: Result<DB, Lifecycle.Error>, id: string, amount: real)
    requires AfterMembership(w, s, sale, membership).1 && IsTransaction(sale, id) && IsAmount(sale, amount)
    ensures IsPaymentAdded(w.log, AfterMembership(w, s, sale, membership).0.log, s, id, amount)
  {
    assert TransactionOf(sale) == id && AmountOf(sale) == amount;
    PaymentIsAdded(w.log, s, sale, id, amount);
  }

  lemma PaymentIsAdded(log: Payments.Log, s: Subscription, sale: Sale, id: string, amount: real)
    requires id != "" ==> PaymentOf(s, sale) == Payments.Draft(s.user, s.priceId, NMI, id, amount, None)
    ensures id != "" ==> IsPaymentAdded(log, AfterPayment(log, PaymentOf(s, sale)), s, id, amount)
  {
  }
}

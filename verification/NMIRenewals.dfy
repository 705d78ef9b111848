/**
 What the deliveries of a sale do to the paid period of its membership: when one sale gives one
 cycle, exactly, and when it gives more.
 */
module NMIRenewals {
  import opened GoInt
  import opened Wrappers
  import opened Strings
  import opened Entitlements
  import opened Subscriptions
  import opened Lifecycle
  import opened NMIWebhooks
  import Payments
  import Idempotency
  import Deduplication

  /** A sale will renew the subscription: it is not pending and has a cycle and a running period. */
  predicate Renewable(cat: Catalog, db: DB, sid: SubId) {
    && sid < |db.subs|
    && var s := db.subs[sid];
       s.status != Pending && HasPeriodEnd(s) && s.priceId in cat.prices && cat.prices[s.priceId].cycleDays.Some?
       && !ActiveElsewhere(db.subs, sid, s.user)
  }

  function CycleOf(cat: Catalog, db: DB, sid: SubId): Time
    requires Renewable(cat, db, sid)
  {
    DaysDuration(cat.prices[db.subs[sid].priceId].cycleDays.value)
  }

  function PeriodEnd(cat: Catalog, db: DB, sid: SubId): Time
    requires Renewable(cat, db, sid)
  {
    db.subs[sid].periodEnd.value
  }

  function RenewedDB(cat: Catalog, db: DB, sid: SubId, now: Time): DB
    requires Renewable(cat, db, sid)
  {
    db.(subs := db.subs[sid := RenewedRow(db.subs[sid], cat.prices[db.subs[sid].priceId].cycleDays.value, now)])
  }

  lemma RenewLands(cat: Catalog, db: DB, sid: SubId, now: Time)
    requires Renewable(cat, db, sid)
    ensures Try(cat, db, On(sid, Renew), now) == Ok(RenewedDB(cat, db, sid, now))
  {
    assert RenewedRow(db.subs[sid], cat.prices[db.subs[sid].priceId].cycleDays.value, now).user == db.subs[sid].user;
  }

  lemma RenewalExtends(cat: Catalog, db: DB, sid: SubId, now: Time)
    requires Renewable(cat, db, sid) && PeriodEnd(cat, db, sid) + CycleOf(cat, db, sid) != ZERO_TIME
    ensures var after := RenewedDB(cat, db, sid, now);
            && Renewable(cat, after, sid) && CycleOf(cat, after, sid) == CycleOf(cat, db, sid)
            && PeriodEnd(cat, after, sid) == PeriodEnd(cat, db, sid) + CycleOf(cat, db, sid)
  {
  }

  /** The payment lookup meets no fault, or is not needed. */
  predicate Completes(sale: Sale) {
    TransactionOf(sale) == "" || !sale.lookupFails
  }

  /** A sale extends the period of its membership by one cycle, whatever comes of its payment. */
  lemma SaleExtends(cat: Catalog, w: World, sale: Sale, sid: SubId, now: Time)
    requires IsFor(sale, sid) && Renewable(cat, w.db, sid) && PeriodEnd(cat, w.db, sid) + CycleOf(cat, w.db, sid) != ZERO_TIME
    ensures var (after, ok) := AfterSale(cat, w, sale, now);
            && (ok <==> Completes(sale))
            && Renewable(cat, after.db, sid) && CycleOf(cat, after.db, sid) == CycleOf(cat, w.db, sid)
            && PeriodEnd(cat, after.db, sid) == PeriodEnd(cat, w.db, sid) + CycleOf(cat, w.db, sid)
            && (Payments.Recorded(w.log, NMI, TransactionOf(sale)) ==> after.log == w.log)
  {
    RenewLands(cat, w.db, sid, now);
    RenewalExtends(cat, w.db, sid, now);
    assert AfterSale(cat, w, sale, now) == AfterMembership(w, w.db.subs[sid], sale, Ok(RenewedDB(cat, w.db, sid, now)));
  }

  /** The same notification, but for the fault its handling may meet. */
  predicate SameSale(a: Sale, b: Sale) {
    b == a.(lookupFails := b.lookupFails)
  }

  /**
   The renewal is not tied to the transaction. Handling one and the same sale twice extends the
   period by two cycles, though it records one payment.
   */
  lemma OneTransactionRenewsTwice(cat: Catalog, w: World, first: Sale, second: Sale, sid: SubId, now: Time, later: Time)
    requires IsFor(first, sid) && SameSale(first, second) && Renewable(cat, w.db, sid)
    requires PeriodEnd(cat, w.db, sid) > 0 && CycleOf(cat, w.db, sid) > 0
    ensures var once := AfterSale(cat, w, first, now).0;
            var twice := AfterSale(cat, once, second, later).0;
            && Renewable(cat, twice.db, sid)
            && PeriodEnd(cat, twice.db, sid) == PeriodEnd(cat, w.db, sid) + CycleOf(cat, w.db, sid) + CycleOf(cat, w.db, sid)
            && (Payments.Recorded(once.log, NMI, TransactionOf(first)) ==> twice.log == once.log)
  {
    SaleExtends(cat, w, first, sid, now);
    SaleExtends(cat, AfterSale(cat, w, first, now).0, second, sid, later);
  }

  /** Deliveries of one sale of a membership, as events of any ids. */
  predicate OneSale(ds: seq<Attempt>, sid: SubId) {
    forall i :: 0 <= i < |ds| ==> ds[i].kind.Success? && IsFor(ds[i].sale, sid) && SameSale(ds[0].sale, ds[i].sale)
  }

  function AfterAll(cat: Catalog, s: State, ds: seq<Attempt>): State {
    if ds == [] then s else AfterAttempt(cat, AfterAll(cat, s, ds[..|ds| - 1]), ds[|ds| - 1])
  }

  /** The delivery repeats the event of the first, and the first was handled and its success recorded. */
  predicate Repeats(first: Attempt, again: Attempt) {
    first.slot.Some? && again.slot == first.slot && first.recorded && Completes(first.sale)
  }

  ghost predicate Extended(cat: Catalog, db: DB, sid: SubId, cycle: Time, end: Time) {
    Renewable(cat, db, sid) && CycleOf(cat, db, sid) == cycle && PeriodEnd(cat, db, sid) >= end
  }

  lemma AttemptExtends(cat: Catalog, s: State, a: Attempt, sid: SubId, cycle: Time, end: Time)
    requires Inv(s) && a.kind.Success? && IsFor(a.sale, sid) && Extended(cat, s.world.db, sid, cycle, end) && end > 0 && cycle > 0
    ensures var t := AfterAttempt(cat, s, a);
            if Deduplication.MustRun(s.rows, a.slot) then Extended(cat, t.world.db, sid, cycle, end + cycle) else t == s
    ensures Handled(cat, s.world, a.kind, a.sale, a.at).1 <==> Completes(a.sale)
  {
    SaleExtends(cat, s.world, a.sale, sid, a.at);
  }

  predicate AllRepeat(ds: seq<Attempt>) {
    forall i :: 1 <= i < |ds| ==> Repeats(ds[0], ds[i])
  }

  lemma AllRepeatGrows(ds: seq<Attempt>)
    requires |ds| >= 2
    ensures AllRepeat(ds) <==> AllRepeat(ds[..|ds| - 1]) && Repeats(ds[0], ds[|ds| - 1])
  {
    var front := ds[..|ds| - 1];
    assert forall i :: 0 <= i < |front| ==> front[i] == ds[i];
  }

  /** After the first delivery, another one is skipped exactly when it repeats the first. */
  lemma SkippedExactlyWhenRepeated(cat: Catalog, s: State, first: Attempt, again: Attempt)
    requires Inv(s) && Deduplication.MustRun(s.rows, again.slot)
    requires Handled(cat, s.world, first.kind, first.sale, first.at).1 <==> Completes(first.sale)
    ensures Deduplication.MustRun(AfterAttempt(cat, s, first).rows, again.slot) <==> !Repeats(first, again)
  {
    if again.slot.Some? {
      AttemptKeepsRows(cat, s, first, again.slot.value);
    }
  }

  /** Either nothing has happened since the first delivery, or the period was extended again. */
  ghost predicate Settled(cat: Catalog, once: State, t: State, sid: SubId, cycle: Time, reached: Time, repeated: bool) {
    if repeated then t == once else Extended(cat, t.world.db, sid, cycle, reached + cycle)
  }

  ghost predicate Reaches(cat: Catalog, db: DB, sid: SubId, cycle: Time, reached: Time) {
    Renewable(cat, db, sid) && CycleOf(cat, db, sid) == cycle && PeriodEnd(cat, db, sid) == reached
  }

  /** The first delivery has left a membership that reaches so far, and its handler reports success as it should. */
  ghost predicate FirstReaches(cat: Catalog, s: State, first: Attempt, sid: SubId, cycle: Time, reached: Time) {
    && Reaches(cat, AfterAttempt(cat, s, first).world.db, sid, cycle, reached) && reached > 0 && cycle > 0
    && (Handled(cat, s.world, first.kind, first.sale, first.at).1 <==> Completes(first.sale))
  }

  lemma {:induction false} RepeatsChangeNothing(cat: Catalog, s: State, ds: seq<Attempt>, sid: SubId, cycle: Time, reached: Time)
    requires Inv(s) && ds != [] && OneSale(ds, sid) && FirstReaches(cat, s, ds[0], sid, cycle, reached)
    requires forall i :: 0 <= i < |ds| ==> Deduplication.MustRun(s.rows, ds[i].slot)
    ensures Inv(AfterAll(cat, s, ds))
    ensures Settled(cat, AfterAttempt(cat, s, ds[0]), AfterAll(cat, s, ds), sid, cycle, reached, AllRepeat(ds))
  {
    var front, last := ds[..|ds| - 1], ds[|ds| - 1];
    if front == [] {
      AttemptKeepsInv(cat, s, ds[0]);
      assert AfterAll(cat, s, front) == s;
    } else {
      RepeatsChangeNothing(cat, s, front, sid, cycle, reached);
      AllRepeatGrows(ds);
      SkippedExactlyWhenRepeated(cat, s, ds[0], last);
      OneMore(cat, AfterAttempt(cat, s, ds[0]), AfterAll(cat, s, front), last, sid, cycle, reached, AllRepeat(front));
    }
  }

  lemma OneMore(cat: Catalog, once: State, mid: State, last: Attempt, sid: SubId, cycle: Time, reached: Time, repeated: bool)
    requires Inv(mid) && last.kind.Success? && IsFor(last.sale, sid) && reached > 0 && cycle > 0
    requires Extended(cat, once.world.db, sid, cycle, reached) && Settled(cat, once, mid, sid, cycle, reached, repeated)
    ensures Inv(AfterAttempt(cat, mid, last))
    ensures Settled(cat, once, AfterAttempt(cat, mid, last), sid, cycle, reached, repeated && !Deduplication.MustRun(once.rows, last.slot))
  {
    AttemptKeepsInv(cat, mid, last);
    if repeated {
      AttemptExtends(cat, mid, last, sid, cycle, reached);
    } else {
      AttemptExtends(cat, mid, last, sid, cycle, reached + cycle);
    }
  }

  /** The deliveries are of one sale of this membership, none of them seen before. */
  predicate FreshSale(s: State, ds: seq<Delivery>, sid: SubId) {
    && (forall i :: 0 <= i < |ds| ==> ds[i].eventType == SALE_SUCCESS && IsFor(ds[i].sale, sid) && SameSale(ds[0].sale, ds[i].sale))
    && (forall i :: 0 <= i < |ds| ==> Deduplication.MustRun(s.rows, AttemptOf(ds[i]).slot))
  }

  /** The delivery is of the event of the first, and the first was handled and its success recorded. */
  predicate RepeatsEvent(first: Delivery, again: Delivery) {
    TrimSpace(again.eventId) == TrimSpace(first.eventId) != "" && first.recorded && Completes(first.sale)
  }

  function AfterDeliveries(cat: Catalog, s: State, ds: seq<Delivery>): State {
    if ds == [] then s else AfterDelivery(cat, AfterDeliveries(cat, s, ds[..|ds| - 1]), ds[|ds| - 1])
  }

  function AttemptsOf(ds: seq<Delivery>): seq<Attempt> {
    seq(|ds|, i requires 0 <= i < |ds| => AttemptOf(ds[i]))
  }

  lemma {:induction false} DeliveriesAreAttempts(cat: Catalog, s: State, ds: seq<Delivery>)
    ensures AfterDeliveries(cat, s, ds) == AfterAll(cat, s, AttemptsOf(ds))
  {
    if ds != [] {
      var front := ds[..|ds| - 1];
      DeliveriesAreAttempts(cat, s, front);
      assert AttemptsOf(ds)[..|ds| - 1] == AttemptsOf(front);
    }
  }

  lemma RepeatsAreOfOneEvent(first: Delivery, again: Delivery)
    requires first.eventType == again.eventType
    ensures Repeats(AttemptOf(first), AttemptOf(again)) <==> RepeatsEvent(first, again)
  {
    AttemptOfSlot(first);
    AttemptOfSlot(again);
    Deduplication.SlotsAgreeIffSameEvent(PROCESSOR, first.eventType, first.eventId, again.eventType, again.eventId);
  }

  /**
   The exact condition. However often one sale is delivered, and as whatever events, it extends the
   period of its membership by exactly one cycle if and only if every delivery after the first is
   of the first one's event, that event has an id, and its first handling succeeded and was recorded.
   */
  lemma OneCycleExactlyWhen(cat: Catalog, s: State, ds: seq<Delivery>, sid: SubId)
    requires Inv(s) && ds != [] && FreshSale(s, ds, sid) && Renewable(cat, s.world.db, sid)
    requires PeriodEnd(cat, s.world.db, sid) > 0 && CycleOf(cat, s.world.db, sid) > 0
    ensures var t := AfterDeliveries(cat, s, ds);
            && Renewable(cat, t.world.db, sid)
            && (PeriodEnd(cat, t.world.db, sid) == PeriodEnd(cat, s.world.db, sid) + CycleOf(cat, s.world.db, sid)
                <==> forall i :: 1 <= i < |ds| ==> RepeatsEvent(ds[0], ds[i]))
  {
    var attempts, cycle, end := AttemptsOf(ds), CycleOf(cat, s.world.db, sid), PeriodEnd(cat, s.world.db, sid);
    AttemptsAreOneSale(ds, sid, s);
    SaleExtends(cat, s.world, ds[0].sale, sid, ds[0].at);
    OnceExtends(cat, s, attempts[0], sid);
    OneEventOnly(cat, s, ds, sid, cycle, end + cycle);
  }

  /** From a first delivery that reaches so far, the period stays there exactly when the others repeat its event. */
  lemma OneEventOnly(cat: Catalog, s: State, ds: seq<Delivery>, sid: SubId, cycle: Time, reached: Time)
    requires Inv(s) && ds != [] && FreshSale(s, ds, sid) && FirstReaches(cat, s, AttemptOf(ds[0]), sid, cycle, reached)
    ensures Outcome(cat, AfterDeliveries(cat, s, ds).world.db, sid, reached, forall i :: 1 <= i < |ds| ==> RepeatsEvent(ds[0], ds[i]))
  {
    DeliveriesAreAttempts(cat, s, ds);
    RepeatsAgree(s, ds, sid);
    FreshAttemptOnly(cat, s, ds, AttemptsOf(ds), sid, cycle, reached);
  }

  lemma FreshAttemptOnly(cat: Catalog, s: State, ds: seq<Delivery>, attempts: seq<Attempt>, sid: SubId, cycle: Time, reached: Time)
    requires Inv(s) && attempts != [] && attempts == AttemptsOf(ds) && FreshSale(s, ds, sid) && FirstReaches(cat, s, attempts[0], sid, cycle, reached)
    ensures Outcome(cat, AfterAll(cat, s, attempts).world.db, sid, reached, AllRepeat(attempts))
  {
    AttemptsAreOneSale(ds, sid, s);
    OneAttemptOnly(cat, s, attempts, sid, cycle, reached);
  }

  lemma OneAttemptOnly(cat: Catalog, s: State, attempts: seq<Attempt>, sid: SubId, cycle: Time, reached: Time)
    requires Inv(s) && attempts != [] && OneSale(attempts, sid) && FirstReaches(cat, s, attempts[0], sid, cycle, reached)
    requires forall i :: 0 <= i < |attempts| ==> Deduplication.MustRun(s.rows, attempts[i].slot)
    ensures Outcome(cat, AfterAll(cat, s, attempts).world.db, sid, reached, AllRepeat(attempts))
  {
    RepeatsChangeNothing(cat, s, attempts, sid, cycle, reached);
    SettledReaches(cat, AfterAttempt(cat, s, attempts[0]), AfterAll(cat, s, attempts), sid, cycle, reached, AllRepeat(attempts));
  }

  /** The membership is renewable, and its period ends there exactly when `repeated`. */
  ghost predicate Outcome(cat: Catalog, db: DB, sid: SubId, reached: Time, repeated: bool) {
    Renewable(cat, db, sid) && (PeriodEnd(cat, db, sid) == reached <==> repeated)
  }

  lemma SettledReaches(cat: Catalog, once: State, t: State, sid: SubId, cycle: Time, reached: Time, repeated: bool)
    requires Reaches(cat, once.world.db, sid, cycle, reached) && Settled(cat, once, t, sid, cycle, reached, repeated) && cycle > 0
    ensures Outcome(cat, t.world.db, sid, reached, repeated)
  {
  }

  lemma RepeatsAgree(s: State, ds: seq<Delivery>, sid: SubId)
    requires ds != [] && FreshSale(s, ds, sid)
    ensures AllRepeat(AttemptsOf(ds)) <==> forall i :: 1 <= i < |ds| ==> RepeatsEvent(ds[0], ds[i])
  {
    forall i | 1 <= i < |ds| ensures Repeats(AttemptsOf(ds)[0], AttemptsOf(ds)[i]) <==> RepeatsEvent(ds[0], ds[i]) {
      RepeatsAreOfOneEvent(ds[0], ds[i]);
    }
  }

  lemma AttemptsAreOneSale(ds: seq<Delivery>, sid: SubId, s: State)
    requires FreshSale(s, ds, sid)
    ensures OneSale(AttemptsOf(ds), sid)
    ensures forall i :: 0 <= i < |ds| ==> Deduplication.MustRun(s.rows, AttemptsOf(ds)[i].slot)
  {
  }

  lemma OnceExtends(cat: Catalog, s: State, a: Attempt, sid: SubId)
    requires a.kind.Success? && IsFor(a.sale, sid) && Renewable(cat, s.world.db, sid) && Deduplication.MustRun(s.rows, a.slot)
    requires PeriodEnd(cat, s.world.db, sid) > 0 && CycleOf(cat, s.world.db, sid) > 0
    ensures FirstReaches(cat, s, a, sid, CycleOf(cat, s.world.db, sid), PeriodEnd(cat, s.world.db, sid) + CycleOf(cat, s.world.db, sid))
  {
    SaleExtends(cat, s.world, a.sale, sid, a.at);
  }

  // ---- the first sale of a membership

  /** The subscription is its user's latest, pending, and its price has a cycle; creating it would succeed. */
  predicate Creatable(cat: Catalog, db: DB, sid: SubId, sale: Sale, now: Time) {
    && sid < |db.subs| && db.subs[sid].status == Pending && LatestByUser(db.subs, db.subs[sid].user) == Some(sid)
    && db.subs[sid].priceId in cat.prices && cat.prices[db.subs[sid].priceId].cycleDays.Some? && cat.prices[db.subs[sid].priceId].cycleDays.value > 0
    && CreateMembership(cat, db, db.subs[sid].user, db.subs[sid].priceId, NMI, sale.order, now).Ok?
  }

  function CycleOfPrice(cat: Catalog, p: PriceId): Time
    requires p in cat.prices && cat.prices[p].cycleDays.Some?
  {
    DaysDuration(cat.prices[p].cycleDays.value)
  }

  lemma CreationReaches(cat: Catalog, db: DB, sid: SubId, sale: Sale, now: Time)
    requires Creatable(cat, db, sid, sale, now) && now + CycleOfPrice(cat, db.subs[sid].priceId) != ZERO_TIME
    ensures var s, after := db.subs[sid], CreateMembership(cat, db, db.subs[sid].user, db.subs[sid].priceId, NMI, sale.order, now).value;
            && Renewable(cat, after, sid) && CycleOf(cat, after, sid) == CycleOfPrice(cat, s.priceId)
            && PeriodEnd(cat, after, sid) == now + CycleOfPrice(cat, s.priceId)
  {
    var s := db.subs[sid];
    var row := CreatedRow(s, s.priceId, NMI, cat.prices[s.priceId].cycleDays, now);
    var after := CreateMembership(cat, db, s.user, s.priceId, NMI, sale.order, now).value;
    assert !ActiveElsewhere(db.subs, sid, s.user);
    assert after.subs == db.subs[sid := row];
  }

  lemma FirstSaleReaches(cat: Catalog, s: State, a: Attempt, sid: SubId)
    requires a.kind.Success? && IsFor(a.sale, sid) && Creatable(cat, s.world.db, sid, a.sale, a.at) && Deduplication.MustRun(s.rows, a.slot)
    requires a.at > 0 && CycleOfPrice(cat, s.world.db.subs[sid].priceId) > 0
    ensures var cycle := CycleOfPrice(cat, s.world.db.subs[sid].priceId); FirstReaches(cat, s, a, sid, cycle, a.at + cycle)
  {
    var db := s.world.db;
    CreationReaches(cat, db, sid, a.sale, a.at);
    assert AfterSale(cat, s.world, a.sale, a.at)
        == AfterMembership(s.world, db.subs[sid], a.sale, CreateMembership(cat, db, db.subs[sid].user, db.subs[sid].priceId, NMI, a.sale.order, a.at));
  }

  /**
   The same for the sale that starts a membership: it gives exactly one cycle, from its delivery on,
   if and only if every further delivery repeats the first one's event. Any other delivery of that
   sale finds the membership active and renews it.
   */
  lemma FirstSaleGivesOneCycleExactlyWhen(cat: Catalog, s: State, ds: seq<Delivery>, sid: SubId)
    requires Inv(s) && ds != [] && FreshSale(s, ds, sid) && Creatable(cat, s.world.db, sid, ds[0].sale, ds[0].at)
    requires ds[0].at > 0 && CycleOfPrice(cat, s.world.db.subs[sid].priceId) > 0
    ensures var t := AfterDeliveries(cat, s, ds);
            && Renewable(cat, t.world.db, sid)
            && (PeriodEnd(cat, t.world.db, sid) == ds[0].at + CycleOfPrice(cat, s.world.db.subs[sid].priceId)
                <==> forall i :: 1 <= i < |ds| ==> RepeatsEvent(ds[0], ds[i]))
  {
    AttemptsAreOneSale(ds, sid, s);
    FirstSaleReaches(cat, s, AttemptsOf(ds)[0], sid);
    OneEventOnly(cat, s, ds, sid, CycleOfPrice(cat, s.world.db.subs[sid].priceId), ds[0].at + CycleOfPrice(cat, s.world.db.subs[sid].priceId));
  }

  // ---- with anything in between

  /** The record that a step marks as a success, if any. */
  function Remembers(cat: Catalog, s: State, step: Step): Option<Idempotency.Slot> {
    if step.Deliver? && step.d.recorded && HandledWell(cat, s.world, step.d) then AttemptOf(step.d).slot else None
  }

  predicate HandledWell(cat: Catalog, w: World, d: Delivery) {
    Handled(cat, w, AttemptOf(d).kind, d.sale, d.at).1
  }

  /** Something noted of every step of a run, and of the state it finds. */
  function Trace<R>(note: (State, Step) -> R, cat: Catalog, s: State, steps: seq<Step>): (notes: seq<R>)
    ensures |notes| == |steps|
  {
    if steps == [] then [] else
    var front := steps[..|steps| - 1];
    Trace(note, cat, s, front) + [note(NMIWebhooks.Exec(cat, s, front), steps[|steps| - 1])]
  }

  lemma {:induction false} TraceAt<R>(note: (State, Step) -> R, cat: Catalog, s: State, steps: seq<Step>, j: nat)
    requires j < |steps|
    ensures Trace(note, cat, s, steps)[j] == note(NMIWebhooks.Exec(cat, s, steps[..j]), steps[j])
  {
    var front := steps[..|steps| - 1];
    if j < |front| {
      TraceAt(note, cat, s, front, j);
      assert front[..j] == steps[..j];
    } else {
      assert front == steps[..j];
    }
  }

  function Rememberer(cat: Catalog): (State, Step) -> Option<Idempotency.Slot> {
    (s, step) => Remembers(cat, s, step)
  }

  function Memory(cat: Catalog, s: State, steps: seq<Step>): seq<Option<Idempotency.Slot>> {
    Trace(Rememberer(cat), cat, s, steps)
  }

  lemma StepRemembers(cat: Catalog, s: State, step: Step, slot: Idempotency.Slot)
    requires Inv(s)
    ensures Deduplication.HasSucceeded(NMIWebhooks.Apply(cat, s, step).rows, slot)
       <==> Deduplication.HasSucceeded(s.rows, slot) || Remembers(cat, s, step) == Some(slot)
  {
    if step.Deliver? {
      AttemptKeepsRows(cat, s, AttemptOf(step.d), slot);
    }
  }

  lemma {:induction false} RowsRemember(cat: Catalog, s: State, steps: seq<Step>, slot: Idempotency.Slot)
    requires Inv(s)
    ensures Deduplication.HasSucceeded(NMIWebhooks.Exec(cat, s, steps).rows, slot)
       <==> Deduplication.HasSucceeded(s.rows, slot) || Some(slot) in Memory(cat, s, steps)
  {
    if steps != [] {
      var front, last := steps[..|steps| - 1], steps[|steps| - 1];
      RowsRemember(cat, s, front, slot);
      RunKeepsInv(cat, s, front);
      StepRemembers(cat, NMIWebhooks.Exec(cat, s, front), last, slot);
    }
  }

  /** An earlier delivery of the event of d was handled with success, and recorded. */
  predicate RepeatsEarlier(cat: Catalog, s: State, steps: seq<Step>, d: Delivery) {
    exists j :: 0 <= j < |steps| && IsEarlierSuccess(cat, s, steps, j, d)
  }

  predicate IsEarlierSuccess(cat: Catalog, s: State, steps: seq<Step>, j: nat, d: Delivery)
    requires j < |steps|
  {
    && steps[j].Deliver? && Deduplication.SameEvent(d.eventType, d.eventId, steps[j].d.eventType, steps[j].d.eventId)
    && steps[j].d.recorded && HandledWell(cat, NMIWebhooks.Exec(cat, s, steps[..j]).world, steps[j].d)
  }

  lemma EarlierSuccessIsOfTheSlot(cat: Catalog, s: State, step: Step, d: Delivery)
    requires AttemptOf(d).slot.Some?
    ensures Remembers(cat, s, step) == AttemptOf(d).slot
       <==> step.Deliver? && Deduplication.SameEvent(d.eventType, d.eventId, step.d.eventType, step.d.eventId)
            && step.d.recorded && HandledWell(cat, s.world, step.d)
  {
    if step.Deliver? {
      AttemptOfSlot(d);
      AttemptOfSlot(step.d);
      Deduplication.SlotsAgreeIffSameEvent(PROCESSOR, d.eventType, d.eventId, step.d.eventType, step.d.eventId);
    }
  }

  lemma MemoryIsOfEarlierSuccesses(cat: Catalog, s: State, steps: seq<Step>, d: Delivery)
    requires AttemptOf(d).slot.Some?
    ensures AttemptOf(d).slot in Memory(cat, s, steps) <==> RepeatsEarlier(cat, s, steps, d)
  {
    var slots := Memory(cat, s, steps);
    forall j | 0 <= j < |steps| ensures slots[j] == AttemptOf(d).slot <==> IsEarlierSuccess(cat, s, steps, j, d) {
      TraceAt(Rememberer(cat), cat, s, steps, j);
      EarlierSuccessIsOfTheSlot(cat, NMIWebhooks.Exec(cat, s, steps[..j]), steps[j], d);
    }
  }

  lemma BlankRepeatsNothing(cat: Catalog, s: State, steps: seq<Step>, d: Delivery)
    requires AttemptOf(d).slot.None?
    ensures !RepeatsEarlier(cat, s, steps, d)
  {
    AttemptOfSlot(d);
    Deduplication.SlotsAgreeIffSameEvent(PROCESSOR, d.eventType, d.eventId, d.eventType, d.eventId);
  }

  lemma SkippedExactlyWhenRepeatsEarlier(cat: Catalog, s: State, steps: seq<Step>, d: Delivery)
    requires Inv(s) && Deduplication.MustRun(s.rows, AttemptOf(d).slot)
    ensures Deduplication.MustRun(NMIWebhooks.Exec(cat, s, steps).rows, AttemptOf(d).slot) <==> !RepeatsEarlier(cat, s, steps, d)
  {
    var slot := AttemptOf(d).slot;
    if slot.Some? {
      RowsRemember(cat, s, steps, slot.value);
      MemoryIsOfEarlierSuccesses(cat, s, steps, d);
    } else {
      BlankRepeatsNothing(cat, s, steps, d);
    }
  }

  /**
   Whatever happens before it, deliveries of any events, changes of memberships and uses of the
   ledger, a delivery of a sale extends the period of a renewable membership by the cycle it has then
   if and only if no earlier delivery of its event was handled with success and recorded. If one was,
   it changes nothing.
   */
  lemma DeliveryExtendsExactlyWhen(cat: Catalog, s: State, steps: seq<Step>, d: Delivery, sid: SubId)
    requires Inv(s) && d.eventType == SALE_SUCCESS && IsFor(d.sale, sid) && Deduplication.MustRun(s.rows, AttemptOf(d).slot)
    requires var db := NMIWebhooks.Exec(cat, s, steps).world.db; Renewable(cat, db, sid) && PeriodEnd(cat, db, sid) > 0 && CycleOf(cat, db, sid) > 0
    ensures var before := NMIWebhooks.Exec(cat, s, steps); var after := AfterDelivery(cat, before, d);
            if RepeatsEarlier(cat, s, steps, d) then after == before
            else Renewable(cat, after.world.db, sid)
                 && PeriodEnd(cat, after.world.db, sid) == PeriodEnd(cat, before.world.db, sid) + CycleOf(cat, before.world.db, sid)
  {
    var before := NMIWebhooks.Exec(cat, s, steps);
    RunKeepsInv(cat, s, steps);
    SkippedExactlyWhenRepeatsEarlier(cat, s, steps, d);
    SuccessKind(d);
    HandledOnce(cat, before, AttemptOf(d), sid);
  }

  lemma SuccessKind(d: Delivery)
    requires d.eventType == SALE_SUCCESS
    ensures AttemptOf(d).kind == Success && AttemptOf(d).sale == d.sale
  {
  }

  lemma HandledOnce(cat: Catalog, s: State, a: Attempt, sid: SubId)
    requires a.kind.Success? && IsFor(a.sale, sid) && Renewable(cat, s.world.db, sid)
    requires PeriodEnd(cat, s.world.db, sid) > 0 && CycleOf(cat, s.world.db, sid) > 0
    ensures var after := AfterAttempt(cat, s, a);
            if !Deduplication.MustRun(s.rows, a.slot) then after == s
            else Renewable(cat, after.world.db, sid)
                 && PeriodEnd(cat, after.world.db, sid) == PeriodEnd(cat, s.world.db, sid) + CycleOf(cat, s.world.db, sid)
  {
    SaleExtends(cat, s.world, a.sale, sid, a.at);
  }
}

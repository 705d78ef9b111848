/**
 CCBill notifications about a subscription. Each handler loads the record, changes it and writes
 it back in one transaction, and is proved to do what Lifecycle says of its change.
 */
module CCBillWebhooks {
  import opened GoInt
  import opened Wrappers
  import opened Entitlements
  import opened Subscriptions
  import opened Lifecycle

  /** The billed amount is positive and within 2% of the new price's amount. */
  predicate AmountMatches(billed: real, expected: real) {
    billed > 0.0 && expected - expected * 0.02 <= billed <= expected + expected * 0.02
  }

  /** For a price that is not free the tolerance is a share of it: from 98% to 102% of the price, and nothing else, matches. */
  lemma MatchesWithinTwoPercent(billed: real, expected: real)
    requires expected > 0.0
    ensures AmountMatches(billed, expected) <==> 0.98 <= billed / expected <= 1.02
  {
    var ratio := billed / expected;
    assert billed == ratio * expected;
    if 0.98 <= ratio <= 1.02 {
      assert (ratio - 0.98) * expected >= 0.0 && (1.02 - ratio) * expected >= 0.0;
    } else if ratio < 0.98 {
      assert (0.98 - ratio) * expected > 0.0;
    } else {
      assert (ratio - 1.02) * expected > 0.0;
    }
  }

  /** A refund ends the subscription when it is at least 80% of the price, if there is a price. */
  predicate EndsSubscription(refund: real, price: Option<real>) {
    price.Some? && if price.value > 0.0 then refund >= 0.8 * price.value else price.value == 0.0
  }

  /**
   The threshold is a share of the price: no refund below it, and every refund from it on, ends a paid
   subscription. Every refund ends a free one, and none ends one whose price is not known.
   */
  lemma EndsFromFourFifths(refund: real, price: real)
    requires refund > 0.0 && price >= 0.0
    ensures price > 0.0 ==> (EndsSubscription(refund, Some(price)) <==> refund / price >= 0.8)
    ensures price == 0.0 ==> EndsSubscription(refund, Some(price))
    ensures !EndsSubscription(refund, None)
  {
    if price == 0.0 {
      return;
    }
    assert refund == (refund / price) * price;
    if refund / price >= 0.8 {
      assert (refund / price - 0.8) * price >= 0.0;
    } else {
      assert (0.8 - refund / price) * price > 0.0;
    }
  }

  class CCBillWebhookService {
    const lifecycle: SubscriptionLifecycleService

    constructor (lifecycle: SubscriptionLifecycleService)
      ensures this.lifecycle == lifecycle
    {
      this.lifecycle := lifecycle;
    }

    /** `expected` is the amount of the new price. */
    method HandleUpgradeSuccess(sid: SubId, priceId: PriceId, billed: real, expected: real, now: Time) returns (ok: bool)
      modifies lifecycle
      ensures !AmountMatches(billed, expected) ==> !ok && lifecycle.db == old(lifecycle.db)
      ensures AmountMatches(billed, expected) ==> lifecycle.Transacted(On(sid, Upgrade(priceId)), now, ok)
    {
      if billed <= 0.0 {
        return false;
      }
      if sid >= |lifecycle.db.subs| || priceId !in lifecycle.cat.prices || lifecycle.cat.prices[priceId].cycleDays.None? {
        return false;
      }
      var tolerance := expected * 0.02;
      if billed < expected - tolerance || billed > expected + tolerance {
        return false;
      }
      var record := new SubscriptionRecord.Load(lifecycle.db.subs[sid]);
      record.ActivateWithPrice(priceId, lifecycle.cat.prices[priceId].cycleDays.value, now);
      if record.row.periodEnd.value < now {
        return false;
      }
      ok := lifecycle.WriteBack(sid, record.row);
    }

    method HandleBillingDateChange(sid: SubId, date: Time, now: Time) returns (ok: bool)
      modifies lifecycle
      ensures lifecycle.Transacted(On(sid, ChangeBillingDate(date)), now, ok)
    {
      if sid >= |lifecycle.db.subs| {
        return false;
      }
      ok := lifecycle.WriteBack(sid, lifecycle.db.subs[sid].(periodEnd := Some(date)));
    }

    /** `renewal` is absent when the notification has no date, or one that does not parse. */
    method HandleUserReactivation(sid: SubId, renewal: Option<Time>, now: Time) returns (ok: bool)
      modifies lifecycle
      ensures lifecycle.Transacted(On(sid, Reactivate(renewal)), now, ok)
    {
      if sid >= |lifecycle.db.subs| {
        return false;
      }
      var record := lifecycle.db.subs[sid].(status := Active, cancelledAt := None, cancelType := None);
      record := record.(cancelFeedback := None, endedAt := None);
      if renewal.Some? {
        record := record.(periodEnd := renewal);
        record := record.(periodStart := Some(now));
      }
      ok := lifecycle.WriteBack(sid, record);
    }

    /** `price` is the amount of the subscription's price, when that is loaded. */
    method HandleRefund(sid: SubId, refund: real, price: Option<real>, reason: Option<string>, now: Time) returns (ok: bool)
      modifies lifecycle
      ensures refund <= 0.0 ==> !ok && lifecycle.db == old(lifecycle.db)
      ensures refund > 0.0 ==> lifecycle.Transacted(On(sid, Change.Refund(EndsSubscription(refund, price), reason)), now, ok)
    {
      if refund <= 0.0 {
        return false;
      }
      if sid >= |lifecycle.db.subs| {
        return false;
      }
      var record := new SubscriptionRecord.Load(lifecycle.db.subs[sid]);
      var shouldTerminate := false;
      if price.Some? && EndsSubscription(refund, price) {
        shouldTerminate := true;
      }
      if shouldTerminate {
        ok := record.ResetCurrentPeriods(now);
        if !ok {
          return;
        }
        record.row := record.row.(status := Cancelled, cancelType := Some(ByMerchant), cancelledAt := Some(now));
        if reason.Some? {
          record.row := record.row.(cancelFeedback := reason);
        }
        ok := lifecycle.EndActiveBySubscription(sid, now, now);
        if !ok {
          return;
        }
      }
      ok := lifecycle.WriteBack(sid, record.row);
    }

    /** A chargeback for an unknown subscription is reported as handled, on purpose. */
    method HandleChargeback(sid: SubId, amount: real, detail: string, now: Time) returns (ok: bool)
      modifies lifecycle
      ensures amount <= 0.0 ==> !ok && lifecycle.db == old(lifecycle.db)
      ensures amount > 0.0 && sid >= |old(lifecycle.db).subs| ==> ok && lifecycle.db == old(lifecycle.db)
      ensures amount > 0.0 && sid < |old(lifecycle.db).subs| ==> lifecycle.Transacted(On(sid, Chargeback(detail)), now, ok)
    {
      if amount <= 0.0 {
        return false;
      }
      if sid >= |lifecycle.db.subs| {
        return true;
      }
      var record := new SubscriptionRecord.Load(lifecycle.db.subs[sid]);
      ok := record.ResetCurrentPeriods(now);
      if !ok {
        return;
      }
      record.row := record.row.(status := Cancelled, cancelType := Some(ByMerchant), cancelledAt := Some(now));
      record.row := record.row.(endedAt := Some(now));
      record.row := record.row.(cancelFeedback := Some(detail));
      var before := lifecycle.db;
      ok := lifecycle.WriteBack(sid, record.row);
      ok := lifecycle.EndActiveBySubscription(sid, now, now);
      if !ok {
        lifecycle.db := before;
      }
    }
  }
}

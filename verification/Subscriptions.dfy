/**
 Subscription rows, and the record object that the handlers load, change field by field and
 write back. Every change of the record is proved against a function on rows.
 */
module Subscriptions {
  import opened GoInt
  import opened Wrappers
  import opened Entitlements

  type PriceId = nat
  type ProductId = nat

  datatype Status = Pending | Active | PastDue | Cancelled

  datatype Processor = NMI | CCBill | Solana | PayPal

  datatype CancelType = ByUser | ByMerchant | ByExpiry | ByChargeback

  datatype Subscription = Subscription(
    user: UserId,
    priceId: PriceId,
    status: Status,
    processor: Processor,
    startedAt: Time,
    endedAt: Option<Time>,
    periodStart: Option<Time>,
    periodEnd: Option<Time>,
    lastRetryAt: Option<Time>,
    retryAttempts: Option<nat>,
    nextRetryAt: Option<Time>,
    cancelledAt: Option<Time>,
    cancelType: Option<CancelType>,
    cancelFeedback: Option<string>)

  /** Go's zero time: the clock counts from it, so no clock reading equals it. */
  const ZERO_TIME: Time := 0

  /** Failed rebills before dunning gives up, and the wait between two attempts (72 hours). */
  const MAX_DUNNING_FAILURES := 5
  const DUNNING_INTERVAL: Time := 259_200_000_000_000

  const DEFAULT_CYCLE_DAYS := 30

  predicate Live(s: Subscription) {
    s.status in {Active, PastDue}
  }

  function Attempts(s: Subscription): nat {
    if s.retryAttempts.None? then 0 else s.retryAttempts.value
  }

  predicate HasPeriodEnd(s: Subscription) {
    s.periodEnd.Some? && s.periodEnd.value != ZERO_TIME
  }

  function PeriodStartFrom(s: Subscription, now: Time): Time {
    if HasPeriodEnd(s) then s.periodEnd.value else now
  }

  function PendingRow(user: UserId, priceId: PriceId, processor: Processor): Subscription {
    Subscription(user, priceId, Pending, processor, ZERO_TIME, None, None, None, None, None, None, None, None, None)
  }

  /** A row put back to active with a new period; the retry fields stay as they are. */
  function Reopened(s: Subscription, start: Time, end: Time): Subscription {
    s.(status := Active, periodStart := Some(start), periodEnd := Some(end),
       cancelledAt := None, cancelType := None, cancelFeedback := None, endedAt := None)
  }

  function CreatedRow(s: Subscription, priceId: PriceId, processor: Processor, cycleDays: Option<int>, now: Time): Subscription {
    var days := if cycleDays.Some? && cycleDays.value > 0 then cycleDays.value else DEFAULT_CYCLE_DAYS;
    Reopened(s, now, now + DaysDuration(days)).(priceId := priceId, processor := processor, startedAt := now)
  }

  function RenewedRow(s: Subscription, cycleDays: int, now: Time): Subscription {
    var start := PeriodStartFrom(s, now);
    Reopened(s, start, start + DaysDuration(cycleDays))
  }

  function CancelledRow(s: Subscription, kind: CancelType, feedback: Option<string>, immediate: bool, now: Time): Subscription {
    var marked := s.(status := Cancelled, cancelledAt := Some(now), cancelType := Some(kind),
                     cancelFeedback := if feedback.Some? then feedback else s.cancelFeedback);
    if immediate then marked.(endedAt := Some(now), periodEnd := Some(now))
    else if s.periodEnd.None? then marked.(endedAt := Some(now))
    else marked
  }

  function ExpiredRow(s: Subscription, now: Time): Subscription {
    s.(status := Cancelled, endedAt := Some(now))
  }

  /** A failed payment: count it, then either schedule the next attempt or give up. */
  function FailedRow(s: Subscription, now: Time): Subscription {
    var counted := s.(status := PastDue, lastRetryAt := Some(now), retryAttempts := Some(Attempts(s) + 1));
    if Attempts(s) + 1 >= MAX_DUNNING_FAILURES
    then counted.(status := Cancelled, endedAt := Some(now))
    else counted.(nextRetryAt := Some(now + DUNNING_INTERVAL))
  }

  /** Clears a period that has run out; a row without a period end is an error. */
  function ResetPeriods(s: Subscription, now: Time): Option<Subscription> {
    if !HasPeriodEnd(s) then None
    else if s.periodEnd.value <= now
    then Some(s.(periodStart := Some(ZERO_TIME), periodEnd := Some(ZERO_TIME), endedAt := Some(now)))
    else Some(s)
  }

  /** The record object of the subscription model, holding the row that a handler has loaded. */
  class SubscriptionRecord {
    var row: Subscription

    constructor Load(row: Subscription)
      ensures this.row == row
    {
      this.row := row;
    }

    /** The next period starts where the running one ends, or now when there is none. */
    method UpdateCurrentPeriods(cycle: Option<Time>, now: Time)
      modifies this
      ensures var start := PeriodStartFrom(old(row), now);
              var length := if cycle.Some? then cycle.value else DaysDuration(DEFAULT_CYCLE_DAYS);
              row == old(row).(periodStart := Some(start), periodEnd := Some(start + length))
    {
      var start := now;
      if row.periodEnd.Some? && row.periodEnd.value != ZERO_TIME {
        start := row.periodEnd.value;
      }
      var length := if cycle.Some? then cycle.value else DaysDuration(DEFAULT_CYCLE_DAYS);
      row := row.(periodStart := Some(start), periodEnd := Some(start + length));
    }

    method ActivateWithPrice(newPrice: PriceId, cycleDays: int, now: Time)
      modifies this
      ensures row == RenewedRow(old(row), cycleDays, now).(priceId := newPrice)
    {
      UpdateCurrentPeriods(Some(DaysDuration(cycleDays)), now);
      row := row.(endedAt := None, cancelType := None, cancelledAt := None);
      row := row.(priceId := newPrice);
      row := row.(cancelFeedback := None, status := Active);
    }

    method ResetCurrentPeriods(now: Time) returns (ok: bool)
      modifies this
      ensures ok <==> ResetPeriods(old(row), now).Some?
      ensures row == if ok then ResetPeriods(old(row), now).value else old(row)
    {
      if row.periodEnd.None? || row.periodEnd.value == ZERO_TIME {
        return false;
      }
      if row.periodEnd.value <= now {
        row := row.(periodStart := Some(ZERO_TIME), periodEnd := Some(ZERO_TIME));
        row := row.(endedAt := Some(now));
      }
      ok := true;
    }

    method Cancel(reason: string, kind: Option<CancelType>, now: Time) returns (ok: bool)
      modifies this
      ensures ok <==> HasPeriodEnd(old(row))
      ensures !ok ==> row == old(row)
      ensures ok ==> row == ResetPeriods(old(row), now).value.(
                status := Cancelled, cancelledAt := Some(now), cancelType := kind,
                cancelFeedback := if reason != "" then Some(reason) else old(row).cancelFeedback)
    {
      ok := ResetCurrentPeriods(now);
      if !ok {
        return;
      }
      row := row.(cancelledAt := Some(now), cancelType := kind);
      if reason != "" {
        row := row.(cancelFeedback := Some(reason));
      }
      row := row.(status := Cancelled);
    }
  }
}

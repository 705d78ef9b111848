/**
 The dunning jobs. A sweep enqueues every past-due NMI subscription whose retry time has come;
 an attempt charges one subscription and records the outcome through the lifecycle service.
 */
module Dunning {
  import opened GoInt
  import opened Wrappers
  import opened Entitlements
  import opened Subscriptions
  import opened Lifecycle
  import opened RetryCounters
  import opened LifecycleOutcomes
  import Payments

  /** What an attempt meets on its way to the processor and back. */
  datatype Rebill = NoClient | NoPaymentMethod | RequestFailed | Declined | Approved

  predicate IsDue(s: Subscription, now: Time) {
    s.processor == NMI && s.status == PastDue && s.nextRetryAt.Some? && s.nextRetryAt.value <= now
  }

  predicate Ascending(ids: seq<SubId>) {
    forall i, j :: 0 <= i < j < |ids| ==> ids[i] < ids[j]
  }

  /** The ids the sweep query returns. */
  function DueIds(subs: seq<Subscription>, now: Time): (ids: seq<SubId>)
    ensures forall id: SubId :: id in ids <==>
              && id < |subs| && subs[id].processor == NMI && subs[id].status == PastDue
              && subs[id].nextRetryAt.Some? && subs[id].nextRetryAt.value <= now
    ensures Ascending(ids)
  {
    if subs == [] then [] else
    var front, last := DueIds(subs[..|subs| - 1], now), |subs| - 1;
    assert forall k :: 0 <= k < |front| ==> front[k] in front;
    front + if IsDue(subs[last], now) then [last] else []
  }

  /** Inserting a job may be refused; the sweep then goes on with the next id. */
  function Accepted(ids: seq<SubId>, refused: set<SubId>): (jobs: seq<SubId>)
    ensures forall id :: id in jobs <==> id in ids && id !in refused
  {
    if ids == [] then [] else
    Accepted(ids[..|ids| - 1], refused) + if ids[|ids| - 1] in refused then [] else [ids[|ids| - 1]]
  }

  /** The outcome of an attempt as a lifecycle operation, if any. */
  function OutcomeOf(s: Subscription, rebill: Rebill): Option<Change> {
    if s.processor != NMI then None else
    match rebill
    case NoClient => None
    case Approved => Some(Renew)
    case _ => Some(Fail)
  }

  class DunningJobs {
    const service: SubscriptionLifecycleService
    const payments: Payments.PaymentService
    var queue: seq<SubId>

    constructor (service: SubscriptionLifecycleService, payments: Payments.PaymentService)
      ensures this.service == service && this.payments == payments && queue == []
    {
      this.service := service;
      this.payments := payments;
      queue := [];
    }

    method Sweep(refused: set<SubId>, now: Time) returns (count: nat)
      modifies this
      ensures queue == old(queue) + Accepted(DueIds(service.db.subs, now), refused)
      ensures count == |queue| - |old(queue)|
    {
      var due := DueIds(service.db.subs, now);
      count := EnqueueAll(due, refused);
    }

    method EnqueueAll(due: seq<SubId>, refused: set<SubId>) returns (count: nat)
      modifies this
      ensures queue == old(queue) + Accepted(due, refused)
      ensures count == |queue| - |old(queue)|
    {
      count := 0;
      ghost var before := queue;
      for k := 0 to |due|
        invariant queue == before + Accepted(due[..k], refused)
        invariant count == |queue| - |before|
      {
        assert due[..k + 1][..k] == due[..k];
        if due[k] !in refused {
          queue := queue + [due[k]];
          count := count + 1;
        }
      }
      assert due[..|due|] == due;
    }

    /**
     Runs the oldest job. The worker does not look at the subscription's status again. After an
     approved charge whose renewal was stored it records the payment; a failing insert is only logged.
     The first clauses say which transaction each answer leads to, the others what comes of it.
     */
    method Attempt(rebill: Rebill, transactionId: string, amount: real, now: Time)
      requires queue != [] && queue[0] < |service.db.subs|
      modifies this, service, payments
      ensures queue == old(queue)[1..]
      ensures var sid := old(queue)[0];
              var s := old(service.db).subs[sid];
              if s.processor != NMI || rebill == NoClient then
                service.db == old(service.db) && payments.log == old(payments.log)
              else if rebill == Approved then
                var renewed := Try(service.cat, old(service.db), On(sid, Renew), now);
                && service.db == (if renewed.Ok? then renewed.value else old(service.db))
                && payments.log == if renewed.Ok? then WithPayment(old(payments.log), s, transactionId, amount) else old(payments.log)
              else
                var failed := Try(service.cat, old(service.db), On(sid, Fail), now);
                && service.db == (if failed.Ok? then failed.value else old(service.db)) && payments.log == old(payments.log)
      ensures var sid := old(queue)[0];
              var s := old(service.db).subs[sid];
              s.processor == NMI && rebill == Approved && CanRenew(service.cat, old(service.db), sid) ==>
                && IsRenewed(service.cat, old(service.db), service.db, sid, now)
                && RecordsCharge(old(payments.log), payments.log, s, transactionId, amount)
      ensures var sid := old(queue)[0];
              var s := old(service.db).subs[sid];
              s.processor == NMI && rebill in {NoPaymentMethod, RequestFailed, Declined} && FailLands(old(service.db), sid, now) ==>
                CountsOneFailure(old(service.db), service.db, sid, now)
    {
      var sid := queue[0];
      var s := service.db.subs[sid];
      queue := queue[1..];
      RenewalMeansRenewed(service.cat, service.db, sid, now);
      FailureMeansCounted(service.cat, service.db, sid, now);
      ChargeIsRecordedIff(payments.log, s, transactionId, amount);
      if s.processor != NMI || rebill == NoClient {
        return;
      }
      if rebill != Approved {
        var _ := service.Fail(sid, now);
        return;
      }
      var ok := service.Renew(sid, now);
      if ok {
        var _ := payments.Create(Payments.Draft(s.user, s.priceId, NMI, transactionId, amount, None));
      }
    }
  }

  /** The subscription is renewed by one cycle, and no sweep at any time takes it. */
  ghost predicate IsRenewed(cat: Catalog, before: DB, after: DB, sid: SubId, now: Time)
    requires sid < |before.subs| && CanRenew(cat, before, sid)
  {
    && IsExtended(cat, before, after, sid, now)
    && forall t :: sid !in DueIds(after.subs, t)
  }

  /** The subscription alone has changed: one more failure, at this time. */
  ghost predicate CountsOneFailure(before: DB, after: DB, sid: SubId, now: Time)
    requires sid < |before.subs|
  {
    && |after.subs| == |before.subs|
    && (forall i :: 0 <= i < |before.subs| && i != sid ==> after.subs[i] == before.subs[i])
    && after.subs[sid].retryAttempts == Some(Attempts(before.subs[sid]) + 1) && after.subs[sid].lastRetryAt == Some(now)
    && after.subs[sid].status == (if Attempts(before.subs[sid]) < 4 then PastDue else Cancelled)
    && (Attempts(before.subs[sid]) < 4 ==> after.subs[sid].nextRetryAt == Some(now + 72 * HOUR) && after.windows == before.windows)
  }

  /** The charge is a new last row, unless its transaction id was there before or its amount does not fit. */
  ghost predicate RecordsCharge(before: Payments.Log, after: Payments.Log, s: Subscription, transactionId: string, amount: real) {
    if Payments.Recorded(before, NMI, transactionId) || !Payments.FitsColumn(amount) then after == before
    else after == before + [Payments.Payment(s.user, s.priceId, NMI, transactionId, Payments.Cents(amount), None)]
  }

  lemma RenewalMeansRenewed(cat: Catalog, db: DB, sid: SubId, now: Time)
    requires sid < |db.subs|
    ensures Try(cat, db, On(sid, Renew), now).Ok? <==> CanRenew(cat, db, sid)
    ensures CanRenew(cat, db, sid) ==> IsRenewed(cat, db, Try(cat, db, On(sid, Renew), now).value, sid, now)
  {
    RenewalExtendsByTheCycle(cat, db, sid, now);
  }

  lemma FailureMeansCounted(cat: Catalog, db: DB, sid: SubId, now: Time)
    requires sid < |db.subs|
    ensures Try(cat, db, On(sid, Fail), now).Ok? <==> FailLands(db, sid, now)
    ensures FailLands(db, sid, now) ==> CountsOneFailure(db, Try(cat, db, On(sid, Fail), now).value, sid, now)
  {
    FailLandsExactlyWhen(cat, db, sid, now);
    FailureSchedulesOrCancels(cat, db, sid, now);
  }

  function WithPayment(log: Payments.Log, s: Subscription, transactionId: string, amount: real): Payments.Log {
    var after := Payments.Created(log, Payments.Draft(s.user, s.priceId, NMI, transactionId, amount, None));
    if after.Some? then after.value else log
  }

  /**
   An approved charge leaves no new row exactly when its transaction id was recorded before, as a
   blank one is from the second time on, or its amount does not fit; otherwise its id is in the
   ledger afterwards, and what was there stays.
   */
  lemma ChargeIsRecordedIff(log: Payments.Log, s: Subscription, transactionId: string, amount: real)
    ensures var after := WithPayment(log, s, transactionId, amount);
            && log <= after
            && (after == log <==> Payments.Recorded(log, NMI, transactionId) || !Payments.FitsColumn(amount))
            && (Payments.Recorded(after, NMI, transactionId) <==> Payments.Recorded(log, NMI, transactionId) || Payments.FitsColumn(amount))
            && RecordsCharge(log, after, s, transactionId, amount)
  {
    var after := WithPayment(log, s, transactionId, amount);
    if after != log {
      assert after[|log|].transactionId == transactionId;
    }
  }
}

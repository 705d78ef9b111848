/**
 The retry fields of subscriptions over every run of lifecycle operations and CCBill handlers:
 what a past-due row always says, and when a failed payment cancels.
 */
module RetryCounters {
  import opened GoInt
  import opened Wrappers
  import opened Entitlements
  import opened Subscriptions
  import opened Lifecycle
  import MembershipAccess

  /** A past-due row has failed one to four times and is retried 72 hours after the last failure. */
  predicate RetryScheduled(s: Subscription) {
    s.status == PastDue ==>
      && 1 <= Attempts(s) < MAX_DUNNING_FAILURES
      && s.lastRetryAt.Some? && s.nextRetryAt == Some(s.lastRetryAt.value + DUNNING_INTERVAL)
  }

  ghost predicate AllScheduled(db: DB) {
    forall i :: 0 <= i < |db.subs| ==> RetryScheduled(db.subs[i])
  }

  predicate SameRetryFields(s: Subscription, t: Subscription) {
    t.retryAttempts == s.retryAttempts && t.lastRetryAt == s.lastRetryAt && t.nextRetryAt == s.nextRetryAt
    && (t.status == PastDue ==> s.status == PastDue)
  }

  predicate FreshRetryFields(s: Subscription) {
    Attempts(s) == 0 && s.status != PastDue
  }

  lemma ChangeKeepsRetryFields(cat: Catalog, db: DB, sid: SubId, change: Change, now: Time)
    requires change != Fail && TryChange(cat, db, sid, change, now).Ok?
    ensures var after := TryChange(cat, db, sid, change, now).value;
            && sid < |db.subs| && |after.subs| == |db.subs| && after.clock == db.clock
            && after.subs == db.subs[sid := after.subs[sid]]
            && SameRetryFields(db.subs[sid], after.subs[sid])
  {
  }

  lemma EnrollKeepsRetryFields(cat: Catalog, db: DB, user: UserId, priceId: PriceId, processor: Processor, now: Time)
    requires priceId in cat.prices && Enrolled(cat, db, user, priceId, processor, now).Ok?
    ensures var e := Enrolled(cat, db, user, priceId, processor, now).value;
            && e.db.clock == db.clock
            && if e.sid < |db.subs| then e.db.subs == db.subs[e.sid := e.db.subs[e.sid]] && SameRetryFields(db.subs[e.sid], e.db.subs[e.sid])
               else e.sid == |db.subs| && |e.db.subs| == |db.subs| + 1 && e.db.subs == db.subs + [e.db.subs[e.sid]] && FreshRetryFields(e.db.subs[e.sid])
  {
  }

  /** Only Fail writes the retry fields or makes a row past due. */
  lemma OthersKeepRetryFields(cat: Catalog, db: DB, op: Op, now: Time)
    requires !(op.On? && op.change == Fail) && Try(cat, db, op, now).Ok?
    ensures var after := Try(cat, db, op, now).value;
            && |db.subs| <= |after.subs| && after.clock == db.clock
            && (forall i :: 0 <= i < |db.subs| ==> SameRetryFields(db.subs[i], after.subs[i]))
            && (forall i :: |db.subs| <= i < |after.subs| ==> FreshRetryFields(after.subs[i]))
  {
    match op
    case On(sid, change) => ChangeKeepsRetryFields(cat, db, sid, change, now);
    case Create(user, priceId, processor, _) => EnrollKeepsRetryFields(cat, db, user, priceId, processor, now);
    case _ =>
  }

  /** A failure is stored unless it is one to cancel by and some open window of the subscription has not started. */
  predicate FailLands(db: DB, sid: SubId, now: Time)
    requires sid < |db.subs|
  {
    FailsOut(db.subs[sid]) ==> AllStarted(db.windows, FromSubscription(sid), now)
  }

  /** When a failed payment of an existing subscription is stored, exactly; it touches no other row. */
  lemma FailLandsExactlyWhen(cat: Catalog, db: DB, sid: SubId, now: Time)
    requires sid < |db.subs|
    ensures Try(cat, db, On(sid, Fail), now).Ok? <==> FailLands(db, sid, now)
    ensures FailLands(db, sid, now) ==> Try(cat, db, On(sid, Fail), now).value.subs == db.subs[sid := FailedRow(db.subs[sid], now)]
                                        && Try(cat, db, On(sid, Fail), now).value.clock == db.clock
  {
    EndActiveLandsExactlyWhen(db.windows, FromSubscription(sid), now, now);
  }

  /** A failure that is not stored leaves everything as it was, but for the clock. */
  lemma AfterFail(cat: Catalog, db: DB, sid: SubId, at: Time)
    requires sid < |db.subs|
    ensures var now := Now(db, Event(On(sid, Fail), at)); var after := Apply(cat, db, Event(On(sid, Fail), at));
            && after.clock == now
            && after.subs == (if FailLands(db, sid, now) then db.subs[sid := FailedRow(db.subs[sid], now)] else db.subs)
            && (!FailLands(db, sid, now) || !FailsOut(db.subs[sid]) ==> after.windows == db.windows)
  {
    FailLandsExactlyWhen(cat, db, sid, Now(db, Event(On(sid, Fail), at)));
  }

  lemma StepKeepsSchedule(cat: Catalog, db: DB, e: Event)
    requires AllScheduled(db)
    ensures var after := Apply(cat, db, e);
            && AllScheduled(after) && |db.subs| <= |after.subs|
            && forall i :: 0 <= i < |db.subs| ==> Attempts(db.subs[i]) <= Attempts(after.subs[i])
  {
    if Try(cat, db, e.op, Now(db, e)).Ok? {
      if e.op.On? && e.op.change == Fail {
        FailLandsExactlyWhen(cat, db, e.op.sid, Now(db, e));
      } else {
        OthersKeepRetryFields(cat, db, e.op, Now(db, e));
        SameFieldsKeepSchedule(db, Try(cat, db, e.op, Now(db, e)).value);
      }
    }
  }

  lemma SameFieldsKeepSchedule(db: DB, after: DB)
    requires AllScheduled(db) && |db.subs| <= |after.subs|
    requires forall i :: 0 <= i < |db.subs| ==> SameRetryFields(db.subs[i], after.subs[i])
    requires forall i :: |db.subs| <= i < |after.subs| ==> FreshRetryFields(after.subs[i])
    ensures AllScheduled(after)
    ensures forall i :: 0 <= i < |db.subs| ==> Attempts(db.subs[i]) == Attempts(after.subs[i])
  {
  }

  /** In every reachable state every past-due subscription is scheduled, with one to four failures behind it. */
  lemma {:induction false} PastDueIsScheduled(cat: Catalog, db: DB, events: seq<Event>)
    requires AllScheduled(db)
    ensures AllScheduled(Exec(cat, db, events)) && |db.subs| <= |Exec(cat, db, events).subs|
    ensures forall i :: 0 <= i < |db.subs| ==> Attempts(db.subs[i]) <= Attempts(Exec(cat, db, events).subs[i])
  {
    if events != [] {
      PastDueIsScheduled(cat, db, events[..|events| - 1]);
      StepKeepsSchedule(cat, Exec(cat, db, events[..|events| - 1]), events[|events| - 1]);
    }
  }

  /** The failed payments a run reports for a subscription that exists at the time, stored or not. */
  ghost function FailedPayments(cat: Catalog, db: DB, events: seq<Event>, sid: SubId): nat {
    if events == [] then 0 else
    var front := events[..|events| - 1];
    FailedPayments(cat, db, front, sid)
    + if events[|events| - 1].op == On(sid, Fail) && sid < |Exec(cat, db, front).subs| then 1 else 0
  }

  /** Those of them that are stored. */
  ghost function StoredFailures(cat: Catalog, db: DB, events: seq<Event>, sid: SubId): nat {
    if events == [] then 0 else
    var front, e := events[..|events| - 1], events[|events| - 1];
    var mid := Exec(cat, db, front);
    StoredFailures(cat, db, front, sid)
    + if e.op == On(sid, Fail) && sid < |mid.subs| && FailLands(mid, sid, Now(mid, e)) then 1 else 0
  }

  /**
   The stored counter is the number of failed payments stored so far; renewing or re-creating never
   resets it. The first four of any subscription are always stored.
   */
  lemma {:induction false} AttemptsCountFailures(cat: Catalog, events: seq<Event>, sid: SubId)
    ensures var db := Exec(cat, START, events); var stored := StoredFailures(cat, START, events, sid);
            && (if sid < |db.subs| then Attempts(db.subs[sid]) == stored else stored == 0)
            && stored <= FailedPayments(cat, START, events, sid)
            && (stored < FailedPayments(cat, START, events, sid) ==> stored >= MAX_DUNNING_FAILURES - 1)
  {
    if events != [] {
      var front, e := events[..|events| - 1], events[|events| - 1];
      AttemptsCountFailures(cat, front, sid);
      var mid := Exec(cat, START, front);
      if e.op.On? && e.op.change == Fail {
        if e.op.sid < |mid.subs| {
          AfterFail(cat, mid, e.op.sid, e.at);
        }
      } else if Try(cat, mid, e.op, Now(mid, e)).Ok? {
        OthersKeepRetryFields(cat, mid, e.op, Now(mid, e));
      }
    }
  }

  /**
   In any run the first four failed payments leave a subscription past due. A further one leaves it
   cancelled if and only if all its open windows have started; otherwise the row stays as it is,
   with the count it has, and so does every row.
   */
  lemma FifthFailureCancels(cat: Catalog, events: seq<Event>, sid: SubId, at: Time)
    requires sid < |Exec(cat, START, events).subs|
    ensures var db := Exec(cat, START, events); var e := Event(On(sid, Fail), at);
            var after := Apply(cat, db, e);
            var k := StoredFailures(cat, START, events, sid) + 1;
            && sid < |after.subs|
            && (k < 5 ==> after.subs[sid].status == PastDue && Attempts(after.subs[sid]) == k)
            && (k >= 5 && AllStarted(db.windows, FromSubscription(sid), Now(db, e)) ==>
                  after.subs[sid].status == Cancelled && Attempts(after.subs[sid]) == k)
            && (k >= 5 && !AllStarted(db.windows, FromSubscription(sid), Now(db, e)) ==> after == db.(clock := Now(db, e)))
  {
    var db := Exec(cat, START, events);
    AttemptsCountFailures(cat, events, sid);
    AfterFail(cat, db, sid, at);
  }

  /**
   The witness: whenever a live subscription with four failures behind it has a window that has not
   started, as when its user had bought days before subscribing, a fifth failure is lost: the row
   stays past due with four attempts, and it is still due for another attempt.
   */
  lemma FifthFailureIsLost(cat: Catalog, db: DB, sid: SubId, at: Time)
    requires AllScheduled(db) && sid < |db.subs| && db.subs[sid].status == PastDue && Attempts(db.subs[sid]) == 4
    requires db.subs[sid].nextRetryAt.value <= at && db.clock <= at && !AllStarted(db.windows, FromSubscription(sid), at)
    ensures var after := Apply(cat, db, Event(On(sid, Fail), at));
            && after == db.(clock := at)
            && after.subs[sid].status == PastDue && Attempts(after.subs[sid]) == 4
            && after.subs[sid].nextRetryAt.value <= after.clock
  {
    assert RetryScheduled(db.subs[sid]);
    AfterFail(cat, db, sid, at);
  }

  /** So many failed payments at one time. */
  function Fails(cat: Catalog, db: DB, sid: SubId, at: Time, n: nat): DB {
    if n == 0 then db else Apply(cat, Fails(cat, db, sid, at, n - 1), Event(On(sid, Fail), at))
  }

  lemma {:induction false} FirstFailsAreStored(cat: Catalog, db: DB, sid: SubId, at: Time, n: nat)
    requires sid < |db.subs| && Attempts(db.subs[sid]) == 0 && db.clock <= at && n <= 4
    ensures var after := Fails(cat, db, sid, at, n);
            && |after.subs| == |db.subs| && after.windows == db.windows && after.clock <= at
            && Attempts(after.subs[sid]) == n && (n > 0 ==> after.subs[sid].status == PastDue)
  {
    if n > 0 {
      FirstFailsAreStored(cat, db, sid, at, n - 1);
      AfterFail(cat, Fails(cat, db, sid, at, n - 1), sid, at);
    }
  }

  lemma FifthIsLost(cat: Catalog, db: DB, sid: SubId, at: Time)
    requires sid < |db.subs| && Attempts(db.subs[sid]) == 0 && db.clock <= at && !AllStarted(db.windows, FromSubscription(sid), at)
    ensures var after := Fails(cat, db, sid, at, 5);
            && sid < |after.subs| && after.subs[sid].status == PastDue && Attempts(after.subs[sid]) == 4 && after.windows == db.windows
  {
    FirstFailsAreStored(cat, db, sid, at, 4);
    AfterFail(cat, Fails(cat, db, sid, at, 4), sid, at);
  }

  /**
   The run that gets there, for every state, every new user and product with a single entitlement:
   days bought, a membership created, and five failed payments before the days are over leave the
   subscription past due with four attempts, and its window open.
   */
  lemma {:induction false} FiveFailuresWhileDaysLast(cat: Catalog, db: DB, user: UserId, name: string, days: int, payment: nat,
                                                     priceId: PriceId, processor: Processor, at: Time, later: Time)
    requires LatestByUser(db.subs, user).None? && forall w :: w in db.windows ==> w.user != user && w.source != FromSubscription(|db.subs|)
    requires KnownPrice(cat, priceId) && NamesOf(cat, priceId) == {name} && 0 < days <= MAX_DAYS
    requires db.clock <= at <= later < at + Days(days)
    ensures var sid := |db.subs|;
            var created := Apply(cat, Apply(cat, db, Event(BuyDays(user, name, days, payment), at)), Event(Create(user, priceId, processor, [name]), at));
            var after := Fails(cat, created, sid, later, 5);
            && sid < |after.subs| && after.subs[sid].status == PastDue && Attempts(after.subs[sid]) == 4
            && MembershipAccess.HasOpen(after.windows, sid, name)
  {
    var sid := |db.subs|;
    var bought := Apply(cat, db, Event(BuyDays(user, name, days, payment), at));
    var f := Window(user, name, at, Some(at + Days(days)), OneOff(Some(payment)), None);
    MembershipAccess.BoughtDays(cat, db, user, name, days, payment, at);
    MembershipAccess.SubscribedAfterDays(cat, bought, db.windows, f, priceId, processor);
    var created := Apply(cat, bought, Event(Create(user, priceId, processor, [name]), at));
    MembershipAccess.LastWindowNotStarted(created.windows, sid, later);
    FifthIsLost(cat, created, sid, later);
  }
}

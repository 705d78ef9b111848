/**
 What each operation on memberships leaves behind, said of the two tables alone: which row is
 written and how, which windows end and when, who loses access, and exactly when it is refused.
 */
module LifecycleOutcomes {
  import opened GoInt
  import opened Wrappers
  import opened Entitlements
  import opened Subscriptions
  import opened Lifecycle
  import opened MembershipAccess

  /** Some other subscription of this user is active. */
  ghost predicate AnotherIsActive(db: DB, sid: SubId, user: UserId) {
    exists i :: 0 <= i < |db.subs| && i != sid && db.subs[i].user == user && db.subs[i].status == Active
  }

  /** The subscription's windows without an end, and no others, now end at this time and are revoked. */
  ghost predicate OnlyItsOpenWindowsEnd(before: Table, after: Table, sid: SubId, at: Time, now: Time) {
    && |after| == |before|
    && (forall i :: 0 <= i < |before| && before[i].source == FromSubscription(sid) && before[i].endAt.None? ==>
          after[i] == before[i].(endAt := Some(at), revokedAt := Some(now)))
    && (forall i :: 0 <= i < |before| && !(before[i].source == FromSubscription(sid) && before[i].endAt.None?) ==> after[i] == before[i])
  }

  /** Every window of the subscription that has no end starts by this time. */
  ghost predicate OpenOnesStartBy(windows: Table, sid: SubId, at: Time) {
    forall w :: w in windows && w.source == FromSubscription(sid) && w.endAt.None? ==> w.startAt <= at
  }

  lemma EndingEndsOnlyItsOwn(windows: Table, sid: SubId, at: Time, now: Time)
    ensures EndActive(windows, FromSubscription(sid), at, now).Ok? <==> OpenOnesStartBy(windows, sid, at)
    ensures OpenOnesStartBy(windows, sid, at) ==>
              OnlyItsOpenWindowsEnd(windows, EndActive(windows, FromSubscription(sid), at, now).value, sid, at, now)
  {
    EndActiveLandsExactlyWhen(windows, FromSubscription(sid), at, now);
  }

  lemma EndedHoldsNothing(subs: seq<Subscription>, before: Table, after: Table, sid: SubId, at: Time, now: Time)
    requires WindowsMatch(subs, before) && OnlyItsOpenWindowsEnd(before, after, sid, at, now)
    ensures HoldsNothing(after, sid)
  {
    forall i | 0 <= i < |after| ensures !HeldBy(after[i], sid) {
      assert MatchesOwner(subs, before[i]);
    }
  }

  /** Once a subscription's open windows have ended, access is what the remaining windows give. */
  lemma EndedAccess(before: Table, after: Table, sid: SubId, at: Time, now: Time, user: UserId, name: string, t: Time)
    requires OnlyItsOpenWindowsEnd(before, after, sid, at, now)
    ensures IsEntitled(after, user, name, t) <==>
            exists i :: 0 <= i < |before| && !(before[i].source == FromSubscription(sid) && before[i].endAt.None?) && Covers(before[i], user, name, t)
  {
    forall i | 0 <= i < |before|
      ensures Covers(after[i], user, name, t) <==>
              !(before[i].source == FromSubscription(sid) && before[i].endAt.None?) && Covers(before[i], user, name, t)
    {
    }
    if i :| 0 <= i < |before| && !(before[i].source == FromSubscription(sid) && before[i].endAt.None?) && Covers(before[i], user, name, t) {
      assert Covers(after[i], user, name, t);
    }
  }

  // ---- cancelling

  /**
   A cancellation at the period end, while the period runs or without one: it always lands, keeps
   the period end and every window, and so takes no access from anyone at any time.
   */
  lemma CancelLeavesThePaidPeriod(cat: Catalog, db: DB, sid: SubId, kind: CancelType, feedback: Option<string>, now: Time)
    requires sid < |db.subs| && (db.subs[sid].periodEnd.None? || now <= db.subs[sid].periodEnd.value)
    ensures var r := Try(cat, db, On(sid, Cancel(kind, feedback, false)), now);
            var s := db.subs[sid];
            && r.Ok? && r.value.windows == db.windows
            && (forall user, name, t :: IsEntitled(r.value.windows, user, name, t) <==> IsEntitled(db.windows, user, name, t))
            && r.value.subs == db.subs[sid := s.(status := Cancelled, cancelType := Some(kind), cancelledAt := Some(now),
                 cancelFeedback := if feedback.None? then s.cancelFeedback else feedback,
                 endedAt := if s.periodEnd.None? then Some(now) else s.endedAt)]
            && r.value.subs[sid].periodEnd == s.periodEnd
  {
  }

  /**
   A cancellation at the period end after that end: its windows end back then, not now. It is refused
   exactly when one of them starts after that end, and then nothing is stored.
   */
  lemma LateCancelEndsAtThePeriodEnd(cat: Catalog, db: DB, sid: SubId, kind: CancelType, feedback: Option<string>, now: Time)
    requires sid < |db.subs| && db.subs[sid].periodEnd.Some? && db.subs[sid].periodEnd.value < now
    ensures var r := Try(cat, db, On(sid, Cancel(kind, feedback, false)), now);
            var s := db.subs[sid];
            && (r.Ok? <==> OpenOnesStartBy(db.windows, sid, s.periodEnd.value))
            && (r.Ok? ==>
                  && r.value.subs == db.subs[sid := s.(status := Cancelled, cancelType := Some(kind), cancelledAt := Some(now),
                       cancelFeedback := if feedback.None? then s.cancelFeedback else feedback)]
                  && OnlyItsOpenWindowsEnd(db.windows, r.value.windows, sid, s.periodEnd.value, now)
                  && (WindowsMatch(db.subs, db.windows) ==> HoldsNothing(r.value.windows, sid)))
  {
    var end := db.subs[sid].periodEnd.value;
    EndingEndsOnlyItsOwn(db.windows, sid, end, now);
    if WindowsMatch(db.subs, db.windows) && OpenOnesStartBy(db.windows, sid, end) {
      EndedHoldsNothing(db.subs, db.windows, EndActive(db.windows, FromSubscription(sid), end, now).value, sid, end, now);
    }
  }

  /** An immediate cancellation ends the period and the windows now. */
  lemma ImmediateCancelEndsNow(cat: Catalog, db: DB, sid: SubId, kind: CancelType, feedback: Option<string>, now: Time)
    requires sid < |db.subs|
    ensures var r := Try(cat, db, On(sid, Cancel(kind, feedback, true)), now);
            var s := db.subs[sid];
            && (r.Ok? <==> OpenOnesStartBy(db.windows, sid, now))
            && (r.Ok? ==>
                  && r.value.subs == db.subs[sid := s.(status := Cancelled, cancelType := Some(kind), cancelledAt := Some(now),
                       cancelFeedback := if feedback.None? then s.cancelFeedback else feedback,
                       endedAt := Some(now), periodEnd := Some(now))]
                  && OnlyItsOpenWindowsEnd(db.windows, r.value.windows, sid, now, now))
  {
    EndingEndsOnlyItsOwn(db.windows, sid, now, now);
  }

  lemma ExpiryEndsNow(cat: Catalog, db: DB, sid: SubId, now: Time)
    requires sid < |db.subs|
    ensures var r := Try(cat, db, On(sid, Expire), now);
            && (r.Ok? <==> OpenOnesStartBy(db.windows, sid, now))
            && (r.Ok? ==>
                  && r.value.subs == db.subs[sid := db.subs[sid].(status := Cancelled, endedAt := Some(now))]
                  && OnlyItsOpenWindowsEnd(db.windows, r.value.windows, sid, now, now))
  {
    EndingEndsOnlyItsOwn(db.windows, sid, now, now);
  }

  // ---- payments

  /**
   A failed payment: the first four schedule a retry in 72 hours and touch no window; from the fifth
   on it cancels and ends the windows, and the retry time stays.
   */
  lemma FailureSchedulesOrCancels(cat: Catalog, db: DB, sid: SubId, now: Time)
    requires sid < |db.subs|
    ensures var r := Try(cat, db, On(sid, Fail), now);
            var s := db.subs[sid];
            var failures := (if s.retryAttempts.Some? then s.retryAttempts.value else 0) + 1;
            var counted := s.(retryAttempts := Some(failures), lastRetryAt := Some(now));
            if failures < 5 then
              && r.Ok? && r.value.windows == db.windows
              && r.value.subs == db.subs[sid := counted.(status := PastDue, nextRetryAt := Some(now + 72 * HOUR))]
            else
              && (r.Ok? <==> OpenOnesStartBy(db.windows, sid, now))
              && (r.Ok? ==>
                    && r.value.subs == db.subs[sid := counted.(status := Cancelled, endedAt := Some(now))]
                    && OnlyItsOpenWindowsEnd(db.windows, r.value.windows, sid, now, now))
  {
    EndingEndsOnlyItsOwn(db.windows, sid, now, now);
  }

  /** Nothing refuses a renewal: the price is known and has a cycle, and no other subscription of the user is active. */
  ghost predicate CanRenew(cat: Catalog, db: DB, sid: SubId)
    requires sid < |db.subs|
  {
    var s := db.subs[sid];
    s.priceId in cat.prices && cat.prices[s.priceId].cycleDays.Some? && !AnotherIsActive(db, sid, s.user)
  }

  /**
   The subscription alone has changed: it is active and not cancelled, and its period is the price's
   cycle from its old end on, or from now without one. No window has changed.
   */
  ghost predicate IsExtended(cat: Catalog, before: DB, after: DB, sid: SubId, now: Time)
    requires sid < |before.subs| && CanRenew(cat, before, sid)
  {
    var s := before.subs[sid];
    var start := if s.periodEnd.None? || s.periodEnd == Some(0) then now else s.periodEnd.value;
    && after.windows == before.windows
    && after.subs == before.subs[sid := s.(status := Active,
         periodStart := Some(start), periodEnd := Some(start + DaysDuration(cat.prices[s.priceId].cycleDays.value)),
         cancelledAt := None, cancelType := None, cancelFeedback := None, endedAt := None)]
  }

  /** A renewal lands exactly when nothing refuses it, and extends the period by one cycle. */
  lemma RenewalExtendsByTheCycle(cat: Catalog, db: DB, sid: SubId, now: Time)
    requires sid < |db.subs|
    ensures var r := Try(cat, db, On(sid, Renew), now);
            && (r.Ok? <==> CanRenew(cat, db, sid))
            && (r.Ok? ==> IsExtended(cat, db, r.value, sid, now))
  {
  }

  /** An upgrade takes the cycle of the new price, and is refused when the period it gives is over already. */
  lemma UpgradeTakesTheNewCycle(cat: Catalog, db: DB, sid: SubId, priceId: PriceId, now: Time)
    requires sid < |db.subs|
    ensures var r := Try(cat, db, On(sid, Upgrade(priceId)), now);
            var s := db.subs[sid];
            var start := if s.periodEnd.None? || s.periodEnd == Some(0) then now else s.periodEnd.value;
            if priceId in cat.prices && cat.prices[priceId].cycleDays.Some? then
              var end := start + DaysDuration(cat.prices[priceId].cycleDays.value);
              && (r.Ok? <==> now <= end && !AnotherIsActive(db, sid, s.user))
              && (r.Ok? ==>
                    && r.value.windows == db.windows
                    && r.value.subs == db.subs[sid := s.(priceId := priceId, status := Active, periodStart := Some(start), periodEnd := Some(end),
                         cancelledAt := None, cancelType := None, cancelFeedback := None, endedAt := None)])
            else r.Err?
  {
  }

  /** A new billing date moves the period end and nothing else. */
  lemma BillingDateMovesTheEnd(cat: Catalog, db: DB, sid: SubId, date: Time, now: Time)
    requires sid < |db.subs|
    ensures var r := Try(cat, db, On(sid, ChangeBillingDate(date)), now);
            && (r.Ok? <==> !(db.subs[sid].status == Active && AnotherIsActive(db, sid, db.subs[sid].user)))
            && (r.Ok? ==> r.value == db.(subs := db.subs[sid := db.subs[sid].(periodEnd := Some(date))]))
  {
  }

  /** A reactivation clears the cancellation, takes the renewal date when there is one, and grants nothing. */
  lemma ReactivationReopensTheRow(cat: Catalog, db: DB, sid: SubId, renewal: Option<Time>, now: Time)
    requires sid < |db.subs|
    ensures var r := Try(cat, db, On(sid, Reactivate(renewal)), now);
            var s := db.subs[sid];
            && (r.Ok? <==> !AnotherIsActive(db, sid, s.user))
            && (r.Ok? ==>
                  && r.value.windows == db.windows
                  && r.value.subs == db.subs[sid := s.(status := Active, cancelledAt := None, cancelType := None, cancelFeedback := None, endedAt := None,
                       periodStart := if renewal.None? then s.periodStart else Some(now),
                       periodEnd := if renewal.None? then s.periodEnd else renewal)])
  {
  }

  // ---- money given back

  /**
   A refund that terminates needs a period end, and ends the windows now. Only a period that has run
   out is zeroed: one that still runs keeps both its times.
   */
  lemma TerminatingRefundEndsNow(cat: Catalog, db: DB, sid: SubId, reason: Option<string>, now: Time)
    requires sid < |db.subs|
    ensures var r := Try(cat, db, On(sid, Refund(true, reason)), now);
            var s := db.subs[sid];
            && (r.Ok? <==> s.periodEnd.Some? && s.periodEnd != Some(0) && OpenOnesStartBy(db.windows, sid, now))
            && (r.Ok? ==>
                  var closed := s.(status := Cancelled, cancelType := Some(ByMerchant), cancelledAt := Some(now),
                                   cancelFeedback := if reason.None? then s.cancelFeedback else reason);
                  && r.value.subs == db.subs[sid :=
                       if now < s.periodEnd.value then closed
                       else closed.(periodStart := Some(0), periodEnd := Some(0), endedAt := Some(now))]
                  && OnlyItsOpenWindowsEnd(db.windows, r.value.windows, sid, now, now))
  {
    EndingEndsOnlyItsOwn(db.windows, sid, now, now);
  }

  /** A chargeback does the same, and the row is ended whether or not its period still runs. */
  lemma ChargebackEndsNow(cat: Catalog, db: DB, sid: SubId, detail: string, now: Time)
    requires sid < |db.subs|
    ensures var r := Try(cat, db, On(sid, Chargeback(detail)), now);
            var s := db.subs[sid];
            && (r.Ok? <==> s.periodEnd.Some? && s.periodEnd != Some(0) && OpenOnesStartBy(db.windows, sid, now))
            && (r.Ok? ==>
                  var closed := s.(status := Cancelled, cancelType := Some(ByMerchant), cancelledAt := Some(now),
                                   cancelFeedback := Some(detail), endedAt := Some(now));
                  && r.value.subs == db.subs[sid :=
                       if now < s.periodEnd.value then closed else closed.(periodStart := Some(0), periodEnd := Some(0))]
                  && OnlyItsOpenWindowsEnd(db.windows, r.value.windows, sid, now, now))
  {
    EndingEndsOnlyItsOwn(db.windows, sid, now, now);
  }

  // ---- subscribing and creating

  /** The user's subscription that was created last. */
  ghost predicate IsLatestOf(subs: seq<Subscription>, sid: SubId, user: UserId) {
    sid < |subs| && subs[sid].user == user && forall i :: sid < i < |subs| ==> subs[i].user != user
  }

  /** A subscription request adds a pending row unless the user's latest one is active, and grants nothing. */
  lemma RequestAddsAPendingRow(cat: Catalog, db: DB, user: UserId, priceId: PriceId, processor: Processor, now: Time)
    ensures var r := Try(cat, db, Op.Subscribe(user, priceId, processor), now);
            && (r.Ok? <==> priceId in cat.prices && forall i: nat :: IsLatestOf(db.subs, i, user) ==> db.subs[i].status != Active)
            && (r.Ok? ==>
                  && r.value.windows == db.windows && |r.value.subs| == |db.subs| + 1 && r.value.subs[..|db.subs|] == db.subs
                  && var row := r.value.subs[|db.subs|];
                     && row.user == user && row.priceId == priceId && row.processor == processor && row.status == Pending
                     && row.periodEnd == None && row.endedAt == None && row.retryAttempts == None && row.nextRetryAt == None)
  {
    var latest := LatestByUser(db.subs, user);
    if latest.Some? {
      assert IsLatestOf(db.subs, latest.value, user);
    }
  }

  /** The entitlements of a product: those it specifies, or "premium" when it specifies none. */
  predicate Grants(cat: Catalog, priceId: PriceId, name: string) {
    && priceId in cat.prices && cat.prices[priceId].productId in cat.products
    && (name in cat.products[cat.prices[priceId].productId]
        || (|cat.products[cat.prices[priceId].productId]| == 0 && name == "premium"))
  }

  lemma NamesAreGranted(cat: Catalog, priceId: PriceId, name: string)
    ensures name in NamesOf(cat, priceId) <==> Grants(cat, priceId, name)
  {
  }

  /** The row a membership is created in: the user's latest one, or a new one at the end. */
  ghost predicate IsEnrolledIn(subs: seq<Subscription>, after: seq<Subscription>, sid: SubId, user: UserId) {
    && sid < |after| && |subs| <= |after|
    && (forall i :: 0 <= i < |subs| && i != sid ==> after[i] == subs[i])
    && ((IsLatestOf(subs, sid, user) && |after| == |subs|)
        || (sid == |subs| && |after| == |subs| + 1 && forall i :: 0 <= i < |subs| ==> subs[i].user != user))
  }

  /** The row of a new membership: active from now on for the price's cycle, or 30 days without a positive one, not cancelled. */
  predicate IsFreshlyActive(row: Subscription, user: UserId, priceId: PriceId, processor: Processor, cycle: Option<int>, now: Time) {
    && row.user == user && row.priceId == priceId && row.processor == processor && row.status == Active
    && row.startedAt == now && row.periodStart == Some(now)
    && row.periodEnd == Some(now + DaysDuration(if cycle.Some? && cycle.value > 0 then cycle.value else 30))
    && row.cancelledAt == None && row.cancelType == None && row.cancelFeedback == None && row.endedAt == None
  }

  lemma EnrolledRowIsFresh(cat: Catalog, db: DB, user: UserId, priceId: PriceId, processor: Processor, now: Time)
    requires priceId in cat.prices && Enrolled(cat, db, user, priceId, processor, now).Ok?
    ensures var e := Enrolled(cat, db, user, priceId, processor, now).value;
            && e.db.windows == db.windows && IsEnrolledIn(db.subs, e.db.subs, e.sid, user)
            && IsFreshlyActive(e.db.subs[e.sid], user, priceId, processor, cat.prices[priceId].cycleDays, now)
            && (e.sid < |db.subs| ==> db.subs[e.sid].status != Active
                                      && SamePayments(db.subs[e.sid], e.db.subs[e.sid]))
  {
    var latest := LatestByUser(db.subs, user);
    if latest.Some? {
      assert IsLatestOf(db.subs, latest.value, user);
    }
  }

  predicate SamePayments(s: Subscription, t: Subscription) {
    t.retryAttempts == s.retryAttempts && t.lastRetryAt == s.lastRetryAt && t.nextRetryAt == s.nextRetryAt
  }

  /** The window is an open grant of this subscription to its user. */
  predicate IsOpenGrant(w: Window, user: UserId, sid: SubId) {
    w.user == user && w.source == FromSubscription(sid) && w.endAt == None && w.revokedAt == None
  }

  lemma {:induction false} GrantAllAddsOpenGrants(windows: Table, user: UserId, sid: SubId, names: seq<string>, now: Time)
    requires GrantAll(windows, user, sid, names, now).Ok?
    ensures var after := GrantAll(windows, user, sid, names, now).value;
            && windows <= after
            && forall i :: |windows| <= i < |after| ==> IsOpenGrant(after[i], user, sid) && after[i].name in names && after[i].startAt >= now
  {
    if names != [] {
      GrantAllAddsOpenGrants(windows, user, sid, names[..|names| - 1], now);
    }
  }

  /**
   A membership that is created: the user's latest row, which is not active, or a new row becomes
   active for one cycle; each entitlement of the product is open for it; the windows that were there
   stay, and those added are open ones of this subscription for its product.
   */
  lemma CreationOpensTheProduct(cat: Catalog, db: DB, user: UserId, priceId: PriceId, processor: Processor, order: seq<string>, now: Time)
    requires Sound(db) && db.clock <= now && Try(cat, db, Op.Create(user, priceId, processor, order), now).Ok?
    ensures var after := Try(cat, db, Op.Create(user, priceId, processor, order), now).value;
            exists sid: nat :: IsEnrolledIn(db.subs, after.subs, sid, user) && CreationIs(cat, db, after, sid, user, priceId, processor, now)
  {
    var after := Try(cat, db, Op.Create(user, priceId, processor, order), now).value;
    var e := Enrolled(cat, db, user, priceId, processor, now).value;
    EnrolledRowIsFresh(cat, db, user, priceId, processor, now);
    EnrolledRow(cat, db, user, priceId, processor, now);
    LaterKeepsNoGap(db.windows, db.clock, now);
    SameUsersKeepMatch(db.subs, e.db.subs, db.windows);
    GrantAllKeeps(e.db.subs, db.windows, user, e.sid, order, now);
    GrantAllAddsOpenGrants(db.windows, user, e.sid, order, now);
    forall n | Grants(cat, priceId, n) ensures HasOpen(after.windows, e.sid, n) {
      assert n in order;
    }
    assert CreationIs(cat, db, after, e.sid, user, priceId, processor, now);
  }

  ghost predicate CreationIs(cat: Catalog, db: DB, after: DB, sid: SubId, user: UserId, priceId: PriceId, processor: Processor, now: Time)
    requires sid < |after.subs| && |db.subs| <= |after.subs|
  {
    && priceId in cat.prices
    && IsFreshlyActive(after.subs[sid], user, priceId, processor, cat.prices[priceId].cycleDays, now)
    && (sid < |db.subs| ==> db.subs[sid].status != Active && SamePayments(db.subs[sid], after.subs[sid]))
    && db.windows <= after.windows
    && (forall n :: Grants(cat, priceId, n) ==> HasOpen(after.windows, sid, n))
    && (forall i :: |db.windows| <= i < |after.windows| ==>
          IsOpenGrant(after.windows[i], user, sid) && Grants(cat, priceId, after.windows[i].name) && now <= after.windows[i].startAt)
  }

  /** Where a new grant of this name starts: now, or at the latest end of the finite windows in force. */
  ghost predicate IsGrantStart(windows: Table, user: UserId, name: string, now: Time, start: Time) {
    || (start == now && forall w :: w in windows ==> !FiniteActive(w, user, name, now))
    || (exists w :: w in windows && FiniteActive(w, user, name, now) && w.endAt == Some(start)
                    && forall v :: v in windows && FiniteActive(v, user, name, now) ==> v.endAt.value <= start)
  }

  /** The subscription holds the name already, or no unrevoked window of it is open or starts where the grant would. */
  ghost predicate HasRoom(windows: Table, user: UserId, sid: SubId, name: string, now: Time) {
    || (exists w :: w in windows && w.source == FromSubscription(sid) && w.name == name && w.revokedAt.None?)
    || (exists start :: IsGrantStart(windows, user, name, now, start) && NoneInTheWay(windows, user, name, start))
  }

  ghost predicate NoneInTheWay(windows: Table, user: UserId, name: string, start: Time) {
    forall w :: w in windows && Unrevoked(w, user, name) ==> w.endAt.Some? && w.startAt != start
  }

  lemma GrantOneLandsExactlyWhen(windows: Table, user: UserId, sid: SubId, name: string, now: Time)
    ensures GrantOne(windows, user, sid, name, now).Ok? <==> HasRoom(windows, user, sid, name, now)
  {
    if ExistsBySource(windows, FromSubscription(sid), name) {
      var i :| 0 <= i < |windows| && windows[i].source == FromSubscription(sid) && windows[i].name == name && windows[i].revokedAt.None?;
      assert windows[i] in windows;
    } else {
      var finite := GetLatestFiniteActive(windows, user, name, now);
      var start := if finite.Some? then finite.value.endAt.value else now;
      assert IsGrantStart(windows, user, name, now, start);
      assert forall other :: IsGrantStart(windows, user, name, now, other) ==> other == start;
      var w := Window(user, name, start, None, FromSubscription(sid), None);
      assert Conflicts(windows, w) <==> !NoneInTheWay(windows, user, name, start) by {
        if !NoneInTheWay(windows, user, name, start) {
          var v :| v in windows && Unrevoked(v, user, name) && !(v.endAt.Some? && v.startAt != start);
          var i :| 0 <= i < |windows| && windows[i] == v;
          assert Clash(windows[i], w);
        }
      }
    }
  }

  /** Windows of other names make no difference to the room for this one. */
  lemma OtherNamesLeaveRoom(windows: Table, more: Table, user: UserId, sid: SubId, name: string, now: Time)
    requires forall w :: w in more ==> w.name != name
    ensures HasRoom(windows + more, user, sid, name, now) <==> HasRoom(windows, user, sid, name, now)
  {
    assert forall w: Window :: w.name == name ==> (w in windows + more <==> w in windows);
    forall start
      ensures IsGrantStart(windows + more, user, name, now, start) <==> IsGrantStart(windows, user, name, now, start)
      ensures NoneInTheWay(windows + more, user, name, start) <==> NoneInTheWay(windows, user, name, start)
    {
    }
  }

  predicate Distinct(names: seq<string>) {
    forall i, j :: 0 <= i < j < |names| ==> names[i] != names[j]
  }

  lemma {:induction false} GrantAllLandsExactlyWhen(windows: Table, user: UserId, sid: SubId, names: seq<string>, now: Time)
    requires Distinct(names)
    ensures GrantAll(windows, user, sid, names, now).Ok? <==> forall n :: n in names ==> HasRoom(windows, user, sid, n, now)
  {
    if names != [] {
      var front, last := names[..|names| - 1], names[|names| - 1];
      assert names == front + [last];
      GrantAllLandsExactlyWhen(windows, user, sid, front, now);
      var granted := GrantAll(windows, user, sid, front, now);
      if granted.Ok? {
        GrantAllAddsOpenGrants(windows, user, sid, front, now);
        var more := granted.value[|windows|..];
        assert granted.value == windows + more;
        GrantOneLandsExactlyWhen(granted.value, user, sid, last, now);
        OtherNamesLeaveRoom(windows, more, user, sid, last, now);
      }
    }
  }

  lemma {:induction false} CountedMeansDistinct(order: seq<string>, names: set<string>)
    requires Enumerates(order, names)
    ensures Distinct(order)
  {
    if order != [] {
      var front, last := order[..|order| - 1], order[|order| - 1];
      assert order == front + [last];
      if last in front {
        assert forall n :: n in names ==> n in front;
        ListedIsNoMore(front, names);
        assert false;
      }
      assert |names - {last}| == |names| - 1;
      CountedMeansDistinct(front, names - {last});
    }
  }

  lemma {:induction false} ListedIsNoMore(list: seq<string>, names: set<string>)
    requires forall n :: n in names ==> n in list
    ensures |names| <= |list|
  {
    if list == [] {
      assert names == {};
    } else {
      var front, last := list[..|list| - 1], list[|list| - 1];
      assert list == front + [last];
      ListedIsNoMore(front, names - {last});
      assert names <= (names - {last}) + {last};
      assert |names| <= |names - {last}| + 1;
    }
  }

  /** The row a membership of this user would be created in. */
  ghost predicate IsEnrollable(subs: seq<Subscription>, sid: SubId, user: UserId) {
    IsLatestOf(subs, sid, user) || (sid == |subs| && forall i :: 0 <= i < |subs| ==> subs[i].user != user)
  }

  /**
   A membership is created exactly when its price and product are known, no subscription of the user
   stands in the way, and each entitlement of the product has room, whatever order they are granted in.
   */
  lemma CreationLandsExactlyWhen(cat: Catalog, db: DB, user: UserId, sid: SubId, priceId: PriceId, processor: Processor,
                                 order: seq<string>, now: Time)
    requires IsEnrollable(db.subs, sid, user) && Enumerates(order, NamesOf(cat, priceId))
    ensures Try(cat, db, Op.Create(user, priceId, processor, order), now).Ok?
       <==> && priceId in cat.prices && cat.prices[priceId].productId in cat.products
            && (forall i :: 0 <= i < |db.subs| && db.subs[i].user == user ==> db.subs[i].status != Active)
            && (forall n :: Grants(cat, priceId, n) ==> HasRoom(db.windows, user, sid, n, now))
  {
    CountedMeansDistinct(order, NamesOf(cat, priceId));
    GrantAllLandsExactlyWhen(db.windows, user, sid, order, now);
    forall n ensures n in order <==> n in NamesOf(cat, priceId) {
    }
    if priceId in cat.prices {
      EnrollmentLandsExactlyWhen(cat, db, user, sid, priceId, processor, now);
    }
  }

  lemma EnrollmentLandsExactlyWhen(cat: Catalog, db: DB, user: UserId, sid: SubId, priceId: PriceId, processor: Processor, now: Time)
    requires IsEnrollable(db.subs, sid, user) && priceId in cat.prices
    ensures var e := Enrolled(cat, db, user, priceId, processor, now);
            && (e.Ok? <==> forall i :: 0 <= i < |db.subs| && db.subs[i].user == user ==> db.subs[i].status != Active)
            && (e.Ok? ==> e.value.sid == sid && e.value.db.windows == db.windows)
  {
    var latest := LatestByUser(db.subs, user);
    assert latest.Some? ==> latest.value == sid;
  }

  // ---- one active subscription per user

  ghost predicate OneActivePerUser(subs: seq<Subscription>) {
    forall i, j :: 0 <= i < j < |subs| && subs[i].status == Active && subs[j].status == Active ==> subs[i].user != subs[j].user
  }

  lemma SavingKeepsOneActive(db: DB, sid: SubId, row: Subscription)
    requires sid < |db.subs| && OneActivePerUser(db.subs) && Save(db, sid, row).Ok?
    ensures OneActivePerUser(Save(db, sid, row).value.subs)
  {
  }

  lemma TryKeepsOneActive(cat: Catalog, db: DB, op: Op, now: Time)
    requires OneActivePerUser(db.subs) && Try(cat, db, op, now).Ok?
    ensures OneActivePerUser(Try(cat, db, op, now).value.subs)
  {
    var after := Try(cat, db, op, now).value;
    match op
    case Create(user, priceId, processor, _) =>
      EnrolledRowIsFresh(cat, db, user, priceId, processor, now);
      var e := Enrolled(cat, db, user, priceId, processor, now).value;
      assert after.subs == e.db.subs;
      if e.sid < |db.subs| {
        SavingKeepsOneActive(db, e.sid, e.db.subs[e.sid]);
      }
    case On(sid, change) => ChangeKeepsOneActive(cat, db, sid, change, now);
    case _ =>
  }

  lemma ChangeKeepsOneActive(cat: Catalog, db: DB, sid: SubId, change: Change, now: Time)
    requires OneActivePerUser(db.subs) && TryChange(cat, db, sid, change, now).Ok?
    ensures OneActivePerUser(TryChange(cat, db, sid, change, now).value.subs)
  {
    var after := TryChange(cat, db, sid, change, now).value;
    ChangeOnlyEnds(cat, db, sid, change, now);
    SavingKeepsOneActive(db, sid, after.subs[sid]);
  }

  /** Whatever the order of operations, a user never has two active subscriptions. */
  lemma {:induction false} RunKeepsOneActive(cat: Catalog, db: DB, events: seq<Event>)
    requires OneActivePerUser(db.subs)
    ensures OneActivePerUser(Exec(cat, db, events).subs)
  {
    if events != [] {
      var front, e := Exec(cat, db, events[..|events| - 1]), events[|events| - 1];
      RunKeepsOneActive(cat, db, events[..|events| - 1]);
      if Try(cat, front, e.op, Now(front, e)).Ok? {
        TryKeepsOneActive(cat, front, e.op, Now(front, e));
      }
    }
  }
}

/**
 How the subscription table and the entitlement table stay related over whole runs: which windows
 a subscription holds, who is entitled when, and exactly which operations can break it.
 */
module MembershipAccess {
  import opened GoInt
  import opened Wrappers
  import opened Entitlements
  import opened Subscriptions
  import opened Lifecycle

  predicate HeldBy(w: Window, sid: SubId) {
    w.source == FromSubscription(sid) && w.revokedAt.None?
  }

  predicate IsOpen(w: Window, sid: SubId, name: string) {
    HeldBy(w, sid) && w.name == name && w.endAt.None?
  }

  ghost predicate HasOpen(windows: Table, sid: SubId, name: string) {
    exists i :: 0 <= i < |windows| && IsOpen(windows[i], sid, name)
  }

  ghost predicate ExactlyOneOpen(windows: Table, sid: SubId, name: string) {
    && HasOpen(windows, sid, name)
    && forall i, j :: 0 <= i < |windows| && 0 <= j < |windows| && IsOpen(windows[i], sid, name) && IsOpen(windows[j], sid, name) ==> i == j
  }

  /** No unrevoked window of the subscription is left. */
  ghost predicate HoldsNothing(windows: Table, sid: SubId) {
    forall i :: 0 <= i < |windows| ==> !HeldBy(windows[i], sid)
  }

  /** Unrevoked subscription windows are open, belong to the subscription's user, and are one per name. */
  ghost predicate WindowsMatch(subs: seq<Subscription>, windows: Table) {
    && (forall i :: 0 <= i < |windows| ==> MatchesOwner(subs, windows[i]))
    && (forall i, j :: 0 <= i < j < |windows| ==> !SameGrant(windows[i], windows[j]))
  }

  predicate MatchesOwner(subs: seq<Subscription>, w: Window) {
    w.source.FromSubscription? && w.revokedAt.None? ==>
      w.endAt.None? && w.source.sub < |subs| && w.user == subs[w.source.sub].user
  }

  /** Both windows are held by one subscription for one name. */
  predicate SameGrant(v: Window, w: Window) {
    v.source.FromSubscription? && v.source == w.source && v.name == w.name && v.revokedAt.None? && w.revokedAt.None?
  }

  /** A finite unrevoked window that covers the time from now until `w` starts. */
  predicate Bridges(f: Window, w: Window, now: Time) {
    Unrevoked(f, w.user, w.name) && f.endAt == Some(w.startAt) && f.startAt <= now
  }

  /** An open subscription window has started, or a finite window bridges the time until it does. */
  ghost predicate NoGap(windows: Table, now: Time) {
    forall i :: 0 <= i < |windows| && windows[i].source.FromSubscription? && windows[i].revokedAt.None? ==>
      windows[i].startAt <= now || exists k :: 0 <= k < |windows| && Bridges(windows[k], windows[i], now)
  }

  ghost predicate Sound(db: DB) {
    WindowsMatch(db.subs, db.windows) && NoGap(db.windows, db.clock)
  }

  ghost predicate AllOpen(cat: Catalog, db: DB, sid: SubId, priceId: PriceId) {
    forall n :: n in NamesOf(cat, priceId) ==> HasOpen(db.windows, sid, n)
  }

  /** Every active or past-due subscription holds an open window per entitlement of its product. */
  ghost predicate Covered(cat: Catalog, db: DB) {
    forall sid :: 0 <= sid < |db.subs| && Live(db.subs[sid]) ==> AllOpen(cat, db, sid, db.subs[sid].priceId)
  }

  // ---- one grant

  lemma GrantOneKeeps(subs: seq<Subscription>, windows: Table, user: UserId, sid: SubId, name: string, now: Time)
    requires WindowsMatch(subs, windows) && NoGap(windows, now)
    requires sid < |subs| && subs[sid].user == user
    requires GrantOne(windows, user, sid, name, now).Ok?
    ensures var after := GrantOne(windows, user, sid, name, now).value;
            && WindowsMatch(subs, after) && NoGap(after, now)
            && windows <= after && HasOpen(after, sid, name)
  {
    var after := GrantOne(windows, user, sid, name, now).value;
    if ExistsBySource(windows, FromSubscription(sid), name) {
      var i :| 0 <= i < |windows| && windows[i].source == FromSubscription(sid) && windows[i].name == name && windows[i].revokedAt.None?;
      assert IsOpen(after[i], sid, name);
    } else {
      var w := after[|windows|];
      assert after == windows + [w] && IsOpen(w, sid, name);
      var finite := GetLatestFiniteActive(windows, user, name, now);
      if finite.Some? {
        var k :| 0 <= k < |windows| && windows[k] == finite.value;
        assert Bridges(after[k], w, now);
      }
      GrowthKeepsBridges(windows, [w], now);
    }
  }

  lemma GrowthKeepsBridges(windows: Table, more: Table, now: Time)
    requires NoGap(windows, now)
    ensures forall i :: 0 <= i < |windows| && windows[i].source.FromSubscription? && windows[i].revokedAt.None? ==>
              windows[i].startAt <= now || exists k :: 0 <= k < |windows + more| && Bridges((windows + more)[k], windows[i], now)
  {
    forall i | 0 <= i < |windows| && windows[i].source.FromSubscription? && windows[i].revokedAt.None? && now < windows[i].startAt
      ensures exists k :: 0 <= k < |windows + more| && Bridges((windows + more)[k], windows[i], now)
    {
      var k :| 0 <= k < |windows| && Bridges(windows[k], windows[i], now);
      assert (windows + more)[k] == windows[k];
    }
  }

  lemma GrowthKeepsOpen(windows: Table, after: Table, sid: SubId, name: string)
    requires windows <= after && HasOpen(windows, sid, name)
    ensures HasOpen(after, sid, name)
  {
    var i :| 0 <= i < |windows| && IsOpen(windows[i], sid, name);
    assert IsOpen(after[i], sid, name);
  }

  lemma {:induction false} GrantAllKeeps(subs: seq<Subscription>, windows: Table, user: UserId, sid: SubId, names: seq<string>, now: Time)
    requires WindowsMatch(subs, windows) && NoGap(windows, now)
    requires sid < |subs| && subs[sid].user == user
    requires GrantAll(windows, user, sid, names, now).Ok?
    ensures var after := GrantAll(windows, user, sid, names, now).value;
            && WindowsMatch(subs, after) && NoGap(after, now)
            && windows <= after && AllNamesOpen(after, sid, names)
  {
    if names != [] {
      var front, last := names[..|names| - 1], names[|names| - 1];
      GrantAllKeeps(subs, windows, user, sid, front, now);
      var mid := GrantAll(windows, user, sid, front, now).value;
      GrantOneKeeps(subs, mid, user, sid, last, now);
      NamesStayOpen(mid, GrantOne(mid, user, sid, last, now).value, sid, names);
    }
  }

  ghost predicate AllNamesOpen(windows: Table, sid: SubId, names: seq<string>) {
    forall n :: n in names ==> HasOpen(windows, sid, n)
  }

  lemma NamesStayOpen(windows: Table, after: Table, sid: SubId, names: seq<string>)
    requires windows <= after && names != []
    requires AllNamesOpen(windows, sid, names[..|names| - 1]) && HasOpen(after, sid, names[|names| - 1])
    ensures AllNamesOpen(after, sid, names)
  {
    var front, last := names[..|names| - 1], names[|names| - 1];
    assert names == front + [last];
    forall n | n in front ensures HasOpen(after, sid, n) {
      GrowthKeepsOpen(windows, after, sid, n);
    }
  }

  // ---- ending windows, and buying days

  lemma EndActiveKeeps(subs: seq<Subscription>, windows: Table, sid: SubId, endAt: Time, now: Time)
    requires WindowsMatch(subs, windows) && NoGap(windows, now)
    ensures var after := AllEnded(windows, FromSubscription(sid), endAt, now);
            && WindowsMatch(subs, after) && NoGap(after, now) && HoldsNothing(after, sid)
            && forall s, n :: s != sid && HasOpen(windows, s, n) ==> HasOpen(after, s, n)
  {
    var after := AllEnded(windows, FromSubscription(sid), endAt, now);
    forall i | 0 <= i < |after| && after[i].source.FromSubscription? && after[i].revokedAt.None? && now < after[i].startAt
      ensures exists k :: 0 <= k < |after| && Bridges(after[k], after[i], now)
    {
      assert after[i] == windows[i];
      var k :| 0 <= k < |windows| && Bridges(windows[k], windows[i], now);
      assert after[k] == windows[k];
    }
    forall s, n | s != sid && HasOpen(windows, s, n) ensures HasOpen(after, s, n) {
      var i :| 0 <= i < |windows| && IsOpen(windows[i], s, n);
      assert IsOpen(after[i], s, n);
    }
  }

  lemma BuyKeeps(subs: seq<Subscription>, windows: Table, user: UserId, name: string, days: int, payment: nat, now: Time)
    requires WindowsMatch(subs, windows) && NoGap(windows, now)
    requires AppendedRows(windows, user, name, days, OneOff(Some(payment)), now).Ok?
    ensures var after := AppendedRows(windows, user, name, days, OneOff(Some(payment)), now).value;
            WindowsMatch(subs, after) && NoGap(after, now) && windows <= after
  {
    var after := AppendedRows(windows, user, name, days, OneOff(Some(payment)), now).value;
    assert after == windows + [after[|windows|]];
    GrowthKeepsBridges(windows, [after[|windows|]], now);
  }

  lemma LaterKeepsNoGap(windows: Table, now: Time, later: Time)
    requires NoGap(windows, now) && now <= later
    ensures NoGap(windows, later)
  {
    forall i | 0 <= i < |windows| && windows[i].source.FromSubscription? && windows[i].revokedAt.None? && later < windows[i].startAt
      ensures exists k :: 0 <= k < |windows| && Bridges(windows[k], windows[i], later)
    {
      var k :| 0 <= k < |windows| && Bridges(windows[k], windows[i], now);
      assert Bridges(windows[k], windows[i], later);
    }
  }

  // ---- every operation keeps the windows sound

  /** Subscriptions are never deleted and never change hands. */
  predicate SameUsers(subs: seq<Subscription>, after: seq<Subscription>) {
    |subs| <= |after| && forall i :: 0 <= i < |subs| ==> after[i].user == subs[i].user
  }

  lemma SameUsersKeepMatch(subs: seq<Subscription>, after: seq<Subscription>, windows: Table)
    requires SameUsers(subs, after) && WindowsMatch(subs, windows)
    ensures WindowsMatch(after, windows)
  {
  }

  /** What one change may do to the windows: nothing, or end those of its own subscription. */
  lemma ChangeOnlyEnds(cat: Catalog, db: DB, sid: SubId, change: Change, now: Time)
    requires TryChange(cat, db, sid, change, now).Ok?
    ensures var after := TryChange(cat, db, sid, change, now).value;
            && sid < |db.subs| && SameUsers(db.subs, after.subs) && |after.subs| == |db.subs| && after.clock == db.clock
            && (forall i :: 0 <= i < |db.subs| && i != sid ==> after.subs[i] == db.subs[i])
            && (after.windows == db.windows
                || exists endAt :: after.windows == AllEnded(db.windows, FromSubscription(sid), endAt, now))
  {
  }

  lemma EnrolledRow(cat: Catalog, db: DB, user: UserId, priceId: PriceId, processor: Processor, now: Time)
    requires priceId in cat.prices && Enrolled(cat, db, user, priceId, processor, now).Ok?
    ensures var e := Enrolled(cat, db, user, priceId, processor, now).value;
            && SameUsers(db.subs, e.db.subs) && e.sid < |e.db.subs| && e.db.windows == db.windows && e.db.clock == db.clock
            && e.db.subs[e.sid].user == user && e.db.subs[e.sid].priceId == priceId && e.db.subs[e.sid].status == Active
            && (forall i :: 0 <= i < |e.db.subs| && i != e.sid ==> i < |db.subs| && e.db.subs[i] == db.subs[i])
  {
  }

  lemma TryKeepsWindows(cat: Catalog, db: DB, op: Op, now: Time)
    requires WindowsMatch(db.subs, db.windows) && NoGap(db.windows, now) && Try(cat, db, op, now).Ok?
    ensures var after := Try(cat, db, op, now).value;
            WindowsMatch(after.subs, after.windows) && NoGap(after.windows, now) && SameUsers(db.subs, after.subs)
  {
    var after := Try(cat, db, op, now).value;
    match op
    case Subscribe(_, _, _) =>
    case Create(user, priceId, processor, order) =>
      EnrolledRow(cat, db, user, priceId, processor, now);
      var e := Enrolled(cat, db, user, priceId, processor, now).value;
      SameUsersKeepMatch(db.subs, e.db.subs, db.windows);
      GrantAllKeeps(e.db.subs, db.windows, user, e.sid, order, now);
    case On(sid, change) =>
      ChangeOnlyEnds(cat, db, sid, change, now);
      if after.windows != db.windows {
        var endAt :| after.windows == AllEnded(db.windows, FromSubscription(sid), endAt, now);
        EndActiveKeeps(db.subs, db.windows, sid, endAt, now);
      }
      SameUsersKeepMatch(db.subs, after.subs, after.windows);
    case BuyDays(user, name, days, payment) =>
      BuyKeeps(db.subs, db.windows, user, name, days, payment, now);
  }

  lemma StepKeepsSound(cat: Catalog, db: DB, e: Event)
    requires Sound(db)
    ensures Sound(Apply(cat, db, e)) && SameUsers(db.subs, Apply(cat, db, e).subs)
  {
    LaterKeepsNoGap(db.windows, db.clock, Now(db, e));
    if Try(cat, db, e.op, Now(db, e)).Ok? {
      TryKeepsWindows(cat, db, e.op, Now(db, e));
    }
  }

  /** No discipline is needed for this part: every run keeps at most one open window per subscription and name. */
  lemma {:induction false} RunKeepsSound(cat: Catalog, db: DB, events: seq<Event>)
    requires Sound(db)
    ensures Sound(Exec(cat, db, events)) && SameUsers(db.subs, Exec(cat, db, events).subs)
  {
    if events != [] {
      var front := events[..|events| - 1];
      RunKeepsSound(cat, db, front);
      StepKeepsSound(cat, Exec(cat, db, front), events[|events| - 1]);
    }
  }

  // ---- no window ends before it starts

  predicate AllRanges(windows: Table) {
    forall i :: 0 <= i < |windows| ==> IsRange(windows[i])
  }

  lemma {:induction false} GrantAllKeepsRanges(windows: Table, user: UserId, sid: SubId, names: seq<string>, now: Time)
    requires AllRanges(windows) && GrantAll(windows, user, sid, names, now).Ok?
    ensures AllRanges(GrantAll(windows, user, sid, names, now).value)
  {
    if names != [] {
      GrantAllKeepsRanges(windows, user, sid, names[..|names| - 1], now);
    }
  }

  lemma EndActiveKeepsRanges(windows: Table, source: Source, endAt: Time, now: Time)
    requires AllRanges(windows) && EndActive(windows, source, endAt, now).Ok?
    ensures AllRanges(EndActive(windows, source, endAt, now).value)
  {
    var ended := EndActive(windows, source, endAt, now).value;
    forall i | 0 <= i < |ended| ensures IsRange(ended[i]) {
      assert ended[i] == windows[i] || IsRange(ended[i]);
    }
  }

  lemma TryKeepsRanges(cat: Catalog, db: DB, op: Op, now: Time)
    requires AllRanges(db.windows) && Try(cat, db, op, now).Ok?
    ensures AllRanges(Try(cat, db, op, now).value.windows)
  {
    match op
    case Create(user, priceId, processor, order) =>
      EnrolledRow(cat, db, user, priceId, processor, now);
      GrantAllKeepsRanges(db.windows, user, Enrolled(cat, db, user, priceId, processor, now).value.sid, order, now);
    case On(sid, change) => ChangeKeepsRanges(cat, db, sid, change, now);
    case _ =>
  }

  lemma ChangeKeepsRanges(cat: Catalog, db: DB, sid: SubId, change: Change, now: Time)
    requires AllRanges(db.windows) && TryChange(cat, db, sid, change, now).Ok?
    ensures AllRanges(TryChange(cat, db, sid, change, now).value.windows)
  {
    var end := EndTime(db.subs[sid], change, now);
    if end.Some? {
      EndActiveKeepsRanges(db.windows, FromSubscription(sid), end.value, now);
    }
  }

  /** No run stores a window that ends before it starts. */
  lemma {:induction false} RunKeepsRanges(cat: Catalog, db: DB, events: seq<Event>)
    requires AllRanges(db.windows)
    ensures AllRanges(Exec(cat, db, events).windows)
  {
    if events != [] {
      var front, e := Exec(cat, db, events[..|events| - 1]), events[|events| - 1];
      RunKeepsRanges(cat, db, events[..|events| - 1]);
      if Try(cat, front, e.op, Now(front, e)).Ok? {
        TryKeepsRanges(cat, front, e.op, Now(front, e));
      }
    }
  }

  // ---- coverage, and exactly when an operation keeps it

  /** A check a caller can make before the operation: are the needed windows there? */
  ghost predicate KeepsCoverage(cat: Catalog, db: DB, op: Op) {
    op.On? && op.sid < |db.subs| ==>
      var s := db.subs[op.sid];
      match op.change
      case Renew => AllOpen(cat, db, op.sid, s.priceId)
      case Fail => FailsOut(s) || AllOpen(cat, db, op.sid, s.priceId)
      case Reactivate(_) => AllOpen(cat, db, op.sid, s.priceId)
      case Upgrade(priceId) => AllOpen(cat, db, op.sid, priceId)
      case _ => true
  }

  lemma CreateCovers(cat: Catalog, db: DB, op: Op, now: Time)
    requires Sound(db) && Covered(cat, db) && db.clock <= now
    requires op.Create? && Try(cat, db, op, now).Ok?
    ensures Covered(cat, Try(cat, db, op, now).value)
  {
    var after := Try(cat, db, op, now).value;
    LaterKeepsNoGap(db.windows, db.clock, now);
    EnrolledRow(cat, db, op.user, op.priceId, op.processor, now);
    var e := Enrolled(cat, db, op.user, op.priceId, op.processor, now).value;
    SameUsersKeepMatch(db.subs, e.db.subs, db.windows);
    GrantAllKeeps(e.db.subs, db.windows, op.user, e.sid, op.order, now);
    forall i, n | 0 <= i < |after.subs| && Live(after.subs[i]) && n in NamesOf(cat, after.subs[i].priceId)
      ensures HasOpen(after.windows, i, n)
    {
      if i == e.sid {
        assert n in op.order;
      } else {
        assert HasOpen(db.windows, i, n);
        GrowthKeepsOpen(db.windows, after.windows, i, n);
      }
    }
  }

  lemma BuyOrSubscribeCovers(cat: Catalog, db: DB, op: Op, now: Time)
    requires Sound(db) && Covered(cat, db) && db.clock <= now
    requires (op.BuyDays? || op.Subscribe?) && Try(cat, db, op, now).Ok?
    ensures Covered(cat, Try(cat, db, op, now).value)
  {
    var after := Try(cat, db, op, now).value;
    forall i, n | 0 <= i < |after.subs| && Live(after.subs[i]) && n in NamesOf(cat, after.subs[i].priceId)
      ensures HasOpen(after.windows, i, n)
    {
      assert HasOpen(db.windows, i, n);
      GrowthKeepsOpen(db.windows, after.windows, i, n);
    }
  }

  /** For a change of one subscription, coverage afterwards is that subscription's own affair. */
  lemma ChangeCoversIff(cat: Catalog, db: DB, sid: SubId, change: Change, now: Time)
    requires Sound(db) && Covered(cat, db) && db.clock <= now
    requires TryChange(cat, db, sid, change, now).Ok?
    ensures var after := TryChange(cat, db, sid, change, now).value;
            Covered(cat, after) <==> (Live(after.subs[sid]) ==> AllOpen(cat, after, sid, after.subs[sid].priceId))
  {
    var after := TryChange(cat, db, sid, change, now).value;
    ChangeOnlyEnds(cat, db, sid, change, now);
    LaterKeepsNoGap(db.windows, db.clock, now);
    forall i, n | 0 <= i < |after.subs| && i != sid && Live(after.subs[i]) && n in NamesOf(cat, after.subs[i].priceId)
      ensures HasOpen(after.windows, i, n)
    {
      assert HasOpen(db.windows, i, n);
      if after.windows != db.windows {
        var endAt :| after.windows == AllEnded(db.windows, FromSubscription(sid), endAt, now);
        EndActiveKeeps(db.subs, db.windows, sid, endAt, now);
      }
    }
  }

  /**
   The exact condition. From a covered state, a successful operation leaves every live
   subscription covered if and only if the windows its outcome needs were already there:
   only Create grants, and Renew, Fail, Reactivate and Upgrade can make a row live without it.
   */
  lemma CoverageIsKeptExactlyWhen(cat: Catalog, db: DB, op: Op, now: Time)
    requires Sound(db) && Covered(cat, db) && db.clock <= now
    requires Try(cat, db, op, now).Ok?
    ensures Covered(cat, Try(cat, db, op, now).value) <==> KeepsCoverage(cat, db, op)
  {
    match op
    case Create(_, _, _, _) => CreateCovers(cat, db, op, now);
    case BuyDays(_, _, _, _) => BuyOrSubscribeCovers(cat, db, op, now);
    case Subscribe(_, _, _) => BuyOrSubscribeCovers(cat, db, op, now);
    case On(sid, change) =>
      var after := TryChange(cat, db, sid, change, now).value;
      ChangeCoversIff(cat, db, sid, change, now);
      match change
      case ChangeBillingDate(_) =>
        assert Live(db.subs[sid]) ==> AllOpen(cat, db, sid, db.subs[sid].priceId);
      case Refund(terminate, _) =>
        assert Live(db.subs[sid]) ==> AllOpen(cat, db, sid, db.subs[sid].priceId);
      case _ =>
  }

  /** The discipline of the handlers: recover, fail or upgrade only a live subscription, and upgrade within its entitlements. */
  predicate Disciplined(cat: Catalog, db: DB, op: Op) {
    op.On? && op.sid < |db.subs| ==>
      var s := db.subs[op.sid];
      match op.change
      case Renew => Live(s)
      case Fail => Live(s)
      case Reactivate(_) => Live(s)
      case Upgrade(priceId) => Live(s) && NamesOf(cat, priceId) <= NamesOf(cat, s.priceId)
      case _ => true
  }

  ghost predicate DisciplinedRun(cat: Catalog, db: DB, events: seq<Event>) {
    events == [] ||
    (DisciplinedRun(cat, db, events[..|events| - 1])
     && Disciplined(cat, Exec(cat, db, events[..|events| - 1]), events[|events| - 1].op))
  }

  lemma {:induction false} DisciplinedRunCovers(cat: Catalog, db: DB, events: seq<Event>)
    requires Sound(db) && Covered(cat, db) && DisciplinedRun(cat, db, events)
    ensures Sound(Exec(cat, db, events)) && Covered(cat, Exec(cat, db, events))
  {
    if events != [] {
      var front, e := events[..|events| - 1], events[|events| - 1];
      DisciplinedRunCovers(cat, db, front);
      var mid := Exec(cat, db, front);
      StepKeepsSound(cat, mid, e);
      if Try(cat, mid, e.op, Now(mid, e)).Ok? {
        assert KeepsCoverage(cat, mid, e.op);
        CoverageIsKeptExactlyWhen(cat, mid, e.op, Now(mid, e));
      }
    }
  }

  /** In every disciplined run each live subscription holds exactly one open window per entitlement of its product. */
  lemma LiveHoldsExactlyOneWindowPerName(cat: Catalog, events: seq<Event>, sid: SubId, name: string)
    requires DisciplinedRun(cat, START, events)
    requires sid < |Exec(cat, START, events).subs| && Live(Exec(cat, START, events).subs[sid])
    requires name in NamesOf(cat, Exec(cat, START, events).subs[sid].priceId)
    ensures ExactlyOneOpen(Exec(cat, START, events).windows, sid, name)
  {
    DisciplinedRunCovers(cat, START, events);
  }

  /** An open subscription window gives access at every time from the clock on, gap or no gap before its start. */
  lemma {:induction false} OpenWindowGivesAccess(db: DB, sid: SubId, name: string, t: Time)
    requires Sound(db) && HasOpen(db.windows, sid, name) && t >= db.clock
    ensures sid < |db.subs| && IsEntitled(db.windows, db.subs[sid].user, name, t)
  {
    var i :| 0 <= i < |db.windows| && IsOpen(db.windows[i], sid, name);
    var w := db.windows[i];
    if w.startAt <= t {
      assert Covers(w, db.subs[sid].user, name, t);
    } else {
      var k :| 0 <= k < |db.windows| && Bridges(db.windows[k], w, db.clock);
      assert Covers(db.windows[k], db.subs[sid].user, name, t);
    }
  }

  /** End to end: in every disciplined run the user of a live subscription is entitled to all its product grants, now and at every later time. */
  lemma LiveSubscribersAreEntitled(cat: Catalog, events: seq<Event>, sid: SubId, name: string, t: Time)
    requires DisciplinedRun(cat, START, events)
    requires sid < |Exec(cat, START, events).subs| && Live(Exec(cat, START, events).subs[sid])
    requires name in NamesOf(cat, Exec(cat, START, events).subs[sid].priceId)
    requires t >= Exec(cat, START, events).clock
    ensures IsEntitled(Exec(cat, START, events).windows, Exec(cat, START, events).subs[sid].user, name, t)
  {
    DisciplinedRunCovers(cat, START, events);
    OpenWindowGivesAccess(Exec(cat, START, events), sid, name, t);
  }

  /** When Create grants a name, the new open window starts now, or where the finite windows active now have all ended. */
  lemma GrantLeavesNoGapAndNoOverlap(windows: Table, user: UserId, sid: SubId, name: string, now: Time, t: Time)
    requires !ExistsBySource(windows, FromSubscription(sid), name)
    requires GrantOne(windows, user, sid, name, now).Ok?
    ensures var after := GrantOne(windows, user, sid, name, now).value;
            && after == windows + [after[|windows|]]
            && IsOpen(after[|windows|], sid, name) && after[|windows|].user == user
            && (forall f :: f in windows && FiniteActive(f, user, name, now) ==> f.endAt.value <= after[|windows|].startAt)
            && (t >= now ==> IsEntitled(after, user, name, t))
  {
    var after := GrantOne(windows, user, sid, name, now).value;
    var w := after[|windows|];
    if t >= w.startAt {
      assert Covers(w, user, name, t);
    } else if t >= now {
      var finite := GetLatestFiniteActive(windows, user, name, now).value;
      var k :| 0 <= k < |windows| && windows[k] == finite;
      assert Covers(after[k], user, name, t);
    }
  }

  // ---- ended subscriptions

  /** The operations that end a subscription's access at once. */
  predicate Closes(db: DB, change: Change, sid: SubId) {
    sid < |db.subs| &&
    match change
    case Cancel(_, _, immediate) => immediate
    case Expire => true
    case Fail => FailsOut(db.subs[sid])
    case Refund(terminate, _) => terminate
    case Chargeback(_) => true
    case _ => false
  }

  /** When a change ends the subscription's windows, and at what time. */
  function EndTime(s: Subscription, change: Change, now: Time): Option<Time> {
    match change
    case Cancel(_, _, immediate) => CancelEnd(s, immediate, now)
    case Expire => Some(now)
    case Fail => if FailsOut(s) then Some(now) else None
    case Refund(terminate, _) => if terminate then Some(now) else None
    case Chargeback(_) => Some(now)
    case _ => None
  }

  /** Refunds and chargebacks need a period end to reset. */
  predicate NeedsPeriodEnd(change: Change) {
    change.Chargeback? || (change.Refund? && change.terminate)
  }

  /**
   When a change that ends windows lands, exactly: every open window of the subscription has started
   by the end time, and a refund or chargeback finds a period end. Otherwise the table refuses a
   window that would end before it starts, and nothing of the change is stored, not even the row.
   */
  lemma ClosingLandsExactlyWhen(cat: Catalog, db: DB, sid: SubId, change: Change, now: Time)
    requires sid < |db.subs| && EndTime(db.subs[sid], change, now).Some?
    ensures TryChange(cat, db, sid, change, now).Ok?
       <==> && AllStarted(db.windows, FromSubscription(sid), EndTime(db.subs[sid], change, now).value)
            && (NeedsPeriodEnd(change) ==> HasPeriodEnd(db.subs[sid]))
  {
    EndActiveLandsExactlyWhen(db.windows, FromSubscription(sid), EndTime(db.subs[sid], change, now).value, now);
  }

  /** A closing that lands leaves the subscription cancelled and without an unrevoked window. */
  lemma ClosingRevokesAll(cat: Catalog, db: DB, sid: SubId, change: Change, now: Time)
    requires WindowsMatch(db.subs, db.windows) && Closes(db, change, sid)
    requires AllStarted(db.windows, FromSubscription(sid), now) && (NeedsPeriodEnd(change) ==> HasPeriodEnd(db.subs[sid]))
    ensures TryChange(cat, db, sid, change, now).Ok?
    ensures var after := TryChange(cat, db, sid, change, now).value;
            after.subs[sid].status == Cancelled && HoldsNothing(after.windows, sid)
  {
    ClosingLandsExactlyWhen(cat, db, sid, change, now);
    EndActiveLandsExactlyWhen(db.windows, FromSubscription(sid), now, now);
    assert forall i :: 0 <= i < |db.windows| ==> !HeldBy(Ended(db.windows[i], FromSubscription(sid), now, now), sid);
  }

  /**
   A closing that is refused for its windows meets a user with bought days left: a finite window in
   force leads up to each window that cannot be ended yet. When those days are over it will land.
   */
  lemma RefusedClosingHasDaysLeft(db: DB, sid: SubId, i: nat)
    requires Sound(db) && i < |db.windows| && db.windows[i].source == FromSubscription(sid)
    requires db.windows[i].endAt.None? && db.windows[i].revokedAt.None? && db.windows[i].startAt > db.clock
    ensures exists k :: 0 <= k < |db.windows| && FiniteActive(db.windows[k], db.windows[i].user, db.windows[i].name, db.clock)
                        && db.windows[k].endAt == Some(db.windows[i].startAt)
  {
    var k :| 0 <= k < |db.windows| && Bridges(db.windows[k], db.windows[i], db.clock);
    assert FiniteActive(db.windows[k], db.windows[i].user, db.windows[i].name, db.clock);
  }

  /** Nothing but Create gives a subscription a window. */
  lemma GrantsComeFromCreate(cat: Catalog, db: DB, op: Op, sid: SubId, now: Time)
    requires HoldsNothing(db.windows, sid) && sid < |db.subs|
    requires op.Create? ==> op.user != db.subs[sid].user
    requires Try(cat, db, op, now).Ok?
    ensures HoldsNothing(Try(cat, db, op, now).value.windows, sid)
  {
    match op
    case Create(user, priceId, processor, order) =>
      EnrolledRow(cat, db, user, priceId, processor, now);
      var e := Enrolled(cat, db, user, priceId, processor, now).value;
      GrantAllIsForOne(db.windows, user, e.sid, order, now, sid);
    case On(s, change) => ChangeOnlyEnds(cat, db, s, change, now);
    case _ =>
  }

  lemma {:induction false} GrantAllIsForOne(windows: Table, user: UserId, sid: SubId, names: seq<string>, now: Time, other: SubId)
    requires HoldsNothing(windows, other) && other != sid && GrantAll(windows, user, sid, names, now).Ok?
    ensures HoldsNothing(GrantAll(windows, user, sid, names, now).value, other)
  {
    if names != [] {
      GrantAllIsForOne(windows, user, sid, names[..|names| - 1], now, other);
    }
  }

  /** Over any run, disciplined or not: a subscription without windows gets none until its user's next Create. */
  lemma {:induction false} NothingUntilNextCreate(cat: Catalog, db: DB, events: seq<Event>, sid: SubId)
    requires Sound(db) && sid < |db.subs| && HoldsNothing(db.windows, sid)
    requires forall i :: 0 <= i < |events| && events[i].op.Create? ==> events[i].op.user != db.subs[sid].user
    ensures HoldsNothing(Exec(cat, db, events).windows, sid)
  {
    if events != [] {
      var front, e := events[..|events| - 1], events[|events| - 1];
      NothingUntilNextCreate(cat, db, front, sid);
      RunKeepsSound(cat, db, front);
      var mid := Exec(cat, db, front);
      if Try(cat, mid, e.op, Now(mid, e)).Ok? {
        GrantsComeFromCreate(cat, mid, e.op, sid, Now(mid, e));
      }
    }
  }

  /**
   A closing that lands, anywhere in any run, leaves the subscription without access of its own until
   the next Create of its user, whatever follows.
   */
  lemma {:induction false} ClosedStaysClosed(cat: Catalog, before: seq<Event>, db: DB, sid: SubId, change: Change, at: Time, events: seq<Event>)
    requires db == Exec(cat, START, before) && Closes(db, change, sid)
    requires var now := Now(db, Event(On(sid, change), at));
             AllStarted(db.windows, FromSubscription(sid), now) && (NeedsPeriodEnd(change) ==> HasPeriodEnd(db.subs[sid]))
    requires forall i :: 0 <= i < |events| && events[i].op.Create? ==> events[i].op.user != db.subs[sid].user
    ensures HoldsNothing(Exec(cat, Apply(cat, db, Event(On(sid, change), at)), events).windows, sid)
  {
    var e := Event(On(sid, change), at);
    RunKeepsSound(cat, START, before);
    ClosingRevokesAll(cat, db, sid, change, Now(db, e));
    StepKeepsSound(cat, db, e);
    NothingUntilNextCreate(cat, Apply(cat, db, e), events, sid);
  }

  /** A closing that does not land changes nothing but the clock: the subscription stays as it was and keeps its windows. */
  lemma RefusedClosingChangesNothing(cat: Catalog, db: DB, sid: SubId, change: Change, at: Time)
    requires sid < |db.subs| && Closes(db, change, sid) && !AllStarted(db.windows, FromSubscription(sid), Now(db, Event(On(sid, change), at)))
    ensures Apply(cat, db, Event(On(sid, change), at)) == db.(clock := Now(db, Event(On(sid, change), at)))
  {
    ClosingLandsExactlyWhen(cat, db, sid, change, Now(db, Event(On(sid, change), at)));
  }

  // ---- a closing that is lost

  /** Days bought, a membership created while they last, and an attempt to close it before they are over. */
  function BoughtThenClosed(user: UserId, name: string, days: int, payment: nat, priceId: PriceId, processor: Processor, sid: SubId,
                            change: Change, at: Time, later: Time): seq<Event> {
    [Event(BuyDays(user, name, days, payment), at), Event(Create(user, priceId, processor, [name]), at), Event(On(sid, change), later)]
  }

  lemma SingleGrant(windows: Table, user: UserId, sid: SubId, name: string, now: Time)
    ensures GrantAll(windows, user, sid, [name], now) == GrantOne(windows, user, sid, name, now)
  {
    assert [name][..0] == [];
  }

  /** Buying days for the first time adds a window from now on. */
  lemma FirstDays(windows: Table, user: UserId, name: string, days: int, source: Source, now: Time)
    requires 0 < days <= MAX_DAYS && forall w :: w in windows ==> !(w.user == user && w.name == name)
    ensures AppendedRows(windows, user, name, days, source, now)
         == Ok(windows + [Window(user, name, now, Some(now + Days(days)), source, None)])
  {
    DaysDurationExact(days);
    forall i | 0 <= i < |windows| ensures windows[i] in windows {
    }
  }

  /** A grant while the only window of the name is a finite one in force starts where that ends. */
  lemma GrantAfterDays(windows: Table, f: Window, sid: SubId, now: Time)
    requires forall w :: w in windows ==> !(w.user == f.user && w.name == f.name) && w.source != FromSubscription(sid)
    requires FiniteActive(f, f.user, f.name, now) && f.source != FromSubscription(sid)
    ensures GrantOne(windows + [f], f.user, sid, f.name, now)
         == Ok(windows + [f] + [Window(f.user, f.name, f.endAt.value, None, FromSubscription(sid), None)])
  {
    var all := windows + [f];
    assert f in all;
    assert GetLatestFiniteActive(all, f.user, f.name, now) == Some(f);
  }

  /**
   The witness: for every state, every new user and product with a single entitlement, the closing
   is lost. A user who has bought days and then subscribes cannot be cancelled at once, expired,
   refunded or charged back before the days are over: the subscription stays active.
   */
  lemma {:induction false} ClosingIsLost(cat: Catalog, db: DB, user: UserId, name: string, days: int, payment: nat, priceId: PriceId,
                                         processor: Processor, change: Change, at: Time, later: Time)
    requires LatestByUser(db.subs, user).None? && forall w :: w in db.windows ==> w.user != user && w.source != FromSubscription(|db.subs|)
    requires KnownPrice(cat, priceId) && NamesOf(cat, priceId) == {name} && 0 < days <= MAX_DAYS
    requires db.clock <= at <= later < at + Days(days)
    requires change.Expire? || change.Chargeback? || (change.Cancel? && change.immediate) || (change.Refund? && change.terminate)
    ensures var sid := |db.subs|;
            var after := Exec(cat, db, BoughtThenClosed(user, name, days, payment, priceId, processor, sid, change, at, later));
            sid < |after.subs| && after.subs[sid].user == user && after.subs[sid].status == Active && HasOpen(after.windows, sid, name)
  {
    var sid := |db.subs|;
    var a, b, c := Event(BuyDays(user, name, days, payment), at), Event(Create(user, priceId, processor, [name]), at), Event(On(sid, change), later);
    ExecThree(cat, db, a, b, c);
    var f := Window(user, name, at, Some(at + Days(days)), OneOff(Some(payment)), None);
    BoughtDays(cat, db, user, name, days, payment, at);
    SubscribedAfterDays(cat, Apply(cat, db, a), db.windows, f, priceId, processor);
    LastWindowNotStarted(Apply(cat, Apply(cat, db, a), b).windows, sid, later);
    RefusedClosingChangesNothing(cat, Apply(cat, Apply(cat, db, a), b), sid, change, later);
  }

  lemma BoughtDays(cat: Catalog, db: DB, user: UserId, name: string, days: int, payment: nat, at: Time)
    requires 0 < days <= MAX_DAYS && db.clock <= at && forall w :: w in db.windows ==> !(w.user == user && w.name == name)
    ensures Apply(cat, db, Event(BuyDays(user, name, days, payment), at))
         == db.(windows := db.windows + [Window(user, name, at, Some(at + Days(days)), OneOff(Some(payment)), None)], clock := at)
  {
    FirstDays(db.windows, user, name, days, OneOff(Some(payment)), at);
  }

  lemma LastWindowNotStarted(windows: Table, sid: SubId, now: Time)
    requires windows != [] && windows[|windows| - 1].source == FromSubscription(sid) && windows[|windows| - 1].endAt.None?
    requires now < windows[|windows| - 1].startAt
    ensures !AllStarted(windows, FromSubscription(sid), now)
  {
  }

  lemma SubscribedAfterDays(cat: Catalog, db: DB, windows: Table, f: Window, priceId: PriceId, processor: Processor)
    requires LatestByUser(db.subs, f.user).None? && db.windows == windows + [f] && FiniteActive(f, f.user, f.name, db.clock)
    requires f.source.OneOff? && forall w :: w in windows ==> !(w.user == f.user && w.name == f.name) && w.source != FromSubscription(|db.subs|)
    requires KnownPrice(cat, priceId) && NamesOf(cat, priceId) == {f.name}
    ensures var sid := |db.subs|;
            var after := Apply(cat, db, Event(Create(f.user, priceId, processor, [f.name]), db.clock));
            && after.subs == db.subs + [CreatedRow(PendingRow(f.user, priceId, processor), priceId, processor, cat.prices[priceId].cycleDays, db.clock)]
            && after.windows == windows + [f] + [Window(f.user, f.name, f.endAt.value, None, FromSubscription(sid), None)]
            && after.clock == db.clock
            && HasOpen(after.windows, sid, f.name)
  {
    var sid := |db.subs|;
    SingleGrant(db.windows, f.user, sid, f.name, db.clock);
    GrantAfterDays(windows, f, sid, db.clock);
    assert Enumerates([f.name], NamesOf(cat, priceId));
    var after := Apply(cat, db, Event(Create(f.user, priceId, processor, [f.name]), db.clock));
    assert IsOpen(after.windows[|db.windows|], sid, f.name);
  }

  lemma ExecThree(cat: Catalog, db: DB, a: Event, b: Event, c: Event)
    ensures Exec(cat, db, [a, b, c]) == Apply(cat, Apply(cat, Apply(cat, db, a), b), c)
  {
    var run := [a, b, c];
    assert run[..2] == [a, b] && run[..2][..1] == [a] && run[..2][..1][..0] == [];
    assert Exec(cat, db, run[..2][..1]) == Apply(cat, db, a);
  }

  /**
   Why the discipline matters. A first payment that fails makes a pending subscription past due,
   and the recovery of that payment renews it: for every state and every new subscriber the
   subscription ends up active and holds no window, so its product gives no access.
   */
  lemma {:induction false} PaidButNotEntitled(cat: Catalog, db: DB, user: UserId, priceId: PriceId, at: Time)
    requires Sound(db) && LatestByUser(db.subs, user).None?
    requires KnownPrice(cat, priceId) && cat.prices[priceId].cycleDays.Some?
    ensures var sid := |db.subs|;
            var after := Exec(cat, db, [Event(Subscribe(user, priceId, NMI), at), Event(On(sid, Fail), at), Event(On(sid, Renew), at)]);
            && sid < |after.subs| && after.subs[sid].user == user && after.subs[sid].status == Active
            && after.subs[sid].priceId == priceId && HoldsNothing(after.windows, sid)
  {
    var sid := |db.subs|;
    var a, b, c := Event(Subscribe(user, priceId, NMI), at), Event(On(sid, Fail), at), Event(On(sid, Renew), at);
    ExecThree(cat, db, a, b, c);
    var pending := Apply(cat, db, a);
    assert pending.subs == db.subs + [PendingRow(user, priceId, NMI)];
    assert HoldsNothing(pending.windows, sid);
    var failed := Apply(cat, pending, b);
    assert failed.subs == db.subs + [FailedRow(PendingRow(user, priceId, NMI), Now(pending, b))];
    assert failed.windows == pending.windows;
    assert !ActiveElsewhere(failed.subs, sid, user);
  }
}

/**
 The entitlement table: half-open access windows [startAt, endAt), open-ended when endAt is
 absent, each with the source that granted it. The queries mean what the WHERE, ORDER BY and
 LIMIT clauses of the repository say. The table refuses what its two partial unique indexes and its
 generated range column do not allow: a range cannot end before it starts.
 */
module Entitlements {
  import opened GoInt
  import opened Wrappers

  type UserId = string
  type SubId = nat

  datatype Source = FromSubscription(sub: SubId) | OneOff(payment: Option<nat>) | Admin | Grace

  datatype Window = Window(
    user: UserId,
    name: string,
    startAt: Time,
    endAt: Option<Time>,
    source: Source,
    revokedAt: Option<Time>)

  type Table = seq<Window>

  datatype GrantError = UniqueViolation | EndsBeforeStart | DaysNotPositive | SubscriptionEntitlementActive

  predicate Unrevoked(w: Window, user: UserId, name: string) {
    w.user == user && w.name == name && w.revokedAt.None?
  }

  predicate Covers(w: Window, user: UserId, name: string, at: Time) {
    Unrevoked(w, user, name) && w.startAt <= at && (w.endAt.None? || at < w.endAt.value)
  }

  ghost predicate IsEntitled(rows: Table, user: UserId, name: string, at: Time) {
    exists i :: 0 <= i < |rows| && Covers(rows[i], user, name, at)
  }

  predicate HasActiveIndefinite(rows: Table, user: UserId, name: string, at: Time) {
    exists i :: 0 <= i < |rows| && Unrevoked(rows[i], user, name) && rows[i].endAt.None? && rows[i].startAt <= at
  }

  /** The unrevoked window that starts last. */
  function GetLatestActive(rows: Table, user: UserId, name: string): (r: Option<Window>)
    ensures r.None? <==> forall w :: w in rows ==> !Unrevoked(w, user, name)
    ensures r.Some? ==> && r.value in rows && Unrevoked(r.value, user, name)
                        && forall w :: w in rows && Unrevoked(w, user, name) ==> w.startAt <= r.value.startAt
  {
    if rows == [] then None else
    var w, rest := rows[|rows| - 1], GetLatestActive(rows[..|rows| - 1], user, name);
    assert rows == rows[..|rows| - 1] + [w];
    if Unrevoked(w, user, name) && (rest.None? || rest.value.startAt < w.startAt) then Some(w) else rest
  }

  predicate FiniteActive(w: Window, user: UserId, name: string, at: Time) {
    Unrevoked(w, user, name) && w.endAt.Some? && w.startAt <= at < w.endAt.value
  }

  /** Among the finite windows that cover `at`, the one that ends last. */
  function GetLatestFiniteActive(rows: Table, user: UserId, name: string, at: Time): (r: Option<Window>)
    ensures r.None? <==> forall w :: w in rows ==> !FiniteActive(w, user, name, at)
    ensures r.Some? ==> && r.value in rows && FiniteActive(r.value, user, name, at)
                        && forall w :: w in rows && FiniteActive(w, user, name, at) ==> w.endAt.value <= r.value.endAt.value
  {
    if rows == [] then None else
    var w, rest := rows[|rows| - 1], GetLatestFiniteActive(rows[..|rows| - 1], user, name, at);
    assert rows == rows[..|rows| - 1] + [w];
    if FiniteActive(w, user, name, at) && (rest.None? || rest.value.endAt.value < w.endAt.value) then Some(w) else rest
  }

  predicate ExistsBySource(rows: Table, source: Source, name: string) {
    exists i :: 0 <= i < |rows| && rows[i].source == source && rows[i].name == name && rows[i].revokedAt.None?
  }

  /** Two unrevoked rows of one user and name may neither both be open nor start together. */
  predicate Clash(a: Window, b: Window) {
    && a.user == b.user && a.name == b.name && a.revokedAt.None? && b.revokedAt.None?
    && (a.startAt == b.startAt || (a.endAt.None? && b.endAt.None?))
  }

  predicate Conflicts(rows: Table, w: Window) {
    exists i :: 0 <= i < |rows| && Clash(rows[i], w)
  }

  /** The window as a range. */
  predicate IsRange(w: Window) {
    w.endAt.Some? ==> w.startAt <= w.endAt.value
  }

  function Insert(rows: Table, w: Window): Result<Table, GrantError> {
    if !IsRange(w) then Err(EndsBeforeStart)
    else if Conflicts(rows, w) then Err(UniqueViolation) else Ok(rows + [w])
  }

  function Ended(w: Window, source: Source, endAt: Time, now: Time): Window {
    if w.source == source && w.endAt.None? then w.(endAt := Some(endAt), revokedAt := Some(now)) else w
  }

  function AllEnded(rows: Table, source: Source, endAt: Time, now: Time): Table {
    seq(|rows|, i requires 0 <= i < |rows| => Ended(rows[i], source, endAt, now))
  }

  /** Every open window of the source has started by then. */
  predicate AllStarted(rows: Table, source: Source, at: Time) {
    forall i :: 0 <= i < |rows| && rows[i].source == source && rows[i].endAt.None? ==> rows[i].startAt <= at
  }

  /** Ends and revokes every window of the source that has no end yet: one update, refused when one of the rows refuses it. */
  function EndActive(rows: Table, source: Source, endAt: Time, now: Time): Result<Table, GrantError> {
    var ended := AllEnded(rows, source, endAt, now);
    if exists i :: 0 <= i < |rows| && ended[i] != rows[i] && !IsRange(ended[i]) then Err(EndsBeforeStart) else Ok(ended)
  }

  function AppendedRows(rows: Table, user: UserId, name: string, days: int, source: Source, now: Time): Result<Table, GrantError> {
    if days <= 0 then Err(DaysNotPositive)
    else if HasActiveIndefinite(rows, user, name, now) then Err(SubscriptionEntitlementActive)
    else
      var last := GetLatestActive(rows, user, name);
      var start := if last.Some? && last.value.endAt.Some? then last.value.endAt.value else now;
      Insert(rows, Window(user, name, start, Some(start + DaysDuration(days)), source, None))
  }

  class EntitlementService {
    var rows: Table

    constructor ()
      ensures rows == []
    {
      rows := [];
    }

    method GrantWindow(user: UserId, name: string, startAt: Time, endAt: Option<Time>, source: Source)
        returns (granted: Result<Window, GrantError>)
      modifies this
      ensures var w := Window(user, name, startAt, endAt, source, None);
              if !IsRange(w) then granted == Err(EndsBeforeStart) && rows == old(rows)
              else if Conflicts(old(rows), w) then granted == Err(UniqueViolation) && rows == old(rows)
              else granted == Ok(w) && rows == old(rows) + [w]
    {
      var w := Window(user, name, startAt, endAt, source, None);
      match Insert(rows, w) {
        case Err(e) =>
          granted := Err(e);
        case Ok(grown) =>
          rows := grown;
          granted := Ok(w);
      }
    }

    /** Appends a finite window right after the latest one; refuses while an open window is active. */
    method AppendEntitlementDays(user: UserId, name: string, days: int, source: Source, now: Time)
        returns (granted: Result<Window, GrantError>)
      modifies this
      ensures var spec := AppendedRows(old(rows), user, name, days, source, now);
              if spec.Ok? then granted.Ok? && rows == spec.value && rows == old(rows) + [granted.value]
              else granted == Err(spec.error) && rows == old(rows)
    {
      if days <= 0 {
        return Err(DaysNotPositive);
      }
      if HasActiveIndefinite(rows, user, name, now) {
        return Err(SubscriptionEntitlementActive);
      }
      var start := now;
      var last := GetLatestActive(rows, user, name);
      if last.Some? && last.value.endAt.Some? {
        start := last.value.endAt.value;
      }
      var end := start + DaysDuration(days);
      granted := GrantWindow(user, name, start, Some(end), source);
    }

    /** Refused, with nothing changed, when a window of the subscription would end before it starts. */
    method EndActiveBySubscription(sub: SubId, endAt: Time, now: Time) returns (ok: bool)
      modifies this
      ensures ok <==> AllStarted(old(rows), FromSubscription(sub), endAt)
      ensures rows == if ok then AllEnded(old(rows), FromSubscription(sub), endAt, now) else old(rows)
    {
      EndActiveLandsExactlyWhen(rows, FromSubscription(sub), endAt, now);
      var ended := EndActive(rows, FromSubscription(sub), endAt, now);
      ok := ended.Ok?;
      if ok {
        rows := ended.value;
      }
    }
  }

  /** The unique index: no two unrevoked windows of one user and name start together. */
  ghost predicate StartsAreUnique(rows: Table, user: UserId, name: string) {
    forall v, w :: v in rows && w in rows && Unrevoked(v, user, name) && Unrevoked(w, user, name) && v.startAt == w.startAt ==> v == w
  }

  /** Where bought days begin: at the end of the unrevoked window that starts last, or now when there is none or it has no end. */
  ghost predicate IsAppendStart(rows: Table, user: UserId, name: string, now: Time, start: Time) {
    || (start == now && forall w :: w in rows ==> !Unrevoked(w, user, name))
    || (exists w :: w in rows && Unrevoked(w, user, name) && start == (if w.endAt.Some? then w.endAt.value else now)
                    && forall v :: v in rows && Unrevoked(v, user, name) ==> v.startAt <= w.startAt)
  }

  /**
   When bought days are granted, exactly: they are more than none, no unrevoked window without an end
   has started, their length does not wrap below zero, and no unrevoked window starts where they begin.
   They are then one window from there on, after the rows there were.
   */
  lemma AppendLandsExactlyWhen(rows: Table, user: UserId, name: string, days: int, source: Source, now: Time, start: Time)
    requires StartsAreUnique(rows, user, name) && IsAppendStart(rows, user, name, now, start)
    ensures var r := AppendedRows(rows, user, name, days, source, now);
            && (r.Ok? <==> && days > 0 && DaysDuration(days) >= 0
                           && (forall w :: w in rows && Unrevoked(w, user, name) && w.endAt.None? ==> now < w.startAt)
                           && (forall w :: w in rows && Unrevoked(w, user, name) ==> w.startAt != start))
            && (r.Ok? ==> r.value == rows + [Window(user, name, start, Some(start + DaysDuration(days)), source, None)])
  {
    AppendStartIsTheLatest(rows, user, name, now, start);
    OpenHasStarted(rows, user, name, now);
    AppendInserts(rows, user, name, days, source, now, start);
  }

  lemma AppendInserts(rows: Table, user: UserId, name: string, days: int, source: Source, now: Time, start: Time)
    requires var last := GetLatestActive(rows, user, name);
             start == if last.Some? && last.value.endAt.Some? then last.value.endAt.value else now
    ensures var r := AppendedRows(rows, user, name, days, source, now);
            && (r.Ok? <==> && days > 0 && DaysDuration(days) >= 0 && !HasActiveIndefinite(rows, user, name, now)
                           && forall w :: w in rows && Unrevoked(w, user, name) ==> w.startAt != start)
            && (r.Ok? ==> r.value == rows + [Window(user, name, start, Some(start + DaysDuration(days)), source, None)])
  {
    StartIsTaken(rows, Window(user, name, start, Some(start + DaysDuration(days)), source, None));
  }

  lemma OpenHasStarted(rows: Table, user: UserId, name: string, now: Time)
    ensures HasActiveIndefinite(rows, user, name, now)
       <==> exists w :: w in rows && Unrevoked(w, user, name) && w.endAt.None? && w.startAt <= now
  {
    if w :| w in rows && Unrevoked(w, user, name) && w.endAt.None? && w.startAt <= now {
      var i :| 0 <= i < |rows| && rows[i] == w;
    }
  }

  lemma StartIsTaken(rows: Table, added: Window)
    requires added.endAt.Some? && added.revokedAt.None?
    ensures Conflicts(rows, added) <==> exists w :: w in rows && Unrevoked(w, added.user, added.name) && w.startAt == added.startAt
  {
    if w :| w in rows && Unrevoked(w, added.user, added.name) && w.startAt == added.startAt {
      var i :| 0 <= i < |rows| && rows[i] == w;
      assert Clash(rows[i], added);
    }
  }

  lemma AppendStartIsTheLatest(rows: Table, user: UserId, name: string, now: Time, start: Time)
    requires StartsAreUnique(rows, user, name) && IsAppendStart(rows, user, name, now, start)
    ensures var last := GetLatestActive(rows, user, name);
            start == if last.Some? && last.value.endAt.Some? then last.value.endAt.value else now
  {
  }

  /** Ending the windows of a source lands exactly when all that are open have started by the end time. */
  lemma EndActiveLandsExactlyWhen(rows: Table, source: Source, endAt: Time, now: Time)
    ensures EndActive(rows, source, endAt, now).Ok? <==> AllStarted(rows, source, endAt)
    ensures AllStarted(rows, source, endAt) ==> EndActive(rows, source, endAt, now) == Ok(AllEnded(rows, source, endAt, now))
  {
    var ended := AllEnded(rows, source, endAt, now);
    if i :| 0 <= i < |rows| && rows[i].source == source && rows[i].endAt.None? && rows[i].startAt > endAt {
      assert ended[i] != rows[i] && !IsRange(ended[i]);
    }
  }

  /**
   What ending the windows of a source means once it lands: access is then exactly what the other
   windows give, those of other sources and those that have an end, and the source has no open
   window left.
   */
  lemma EndActiveRevokesExactly(rows: Table, source: Source, endAt: Time, now: Time, user: UserId, name: string, t: Time)
    requires AllStarted(rows, source, endAt)
    ensures EndActive(rows, source, endAt, now).Ok?
    ensures var after := EndActive(rows, source, endAt, now).value;
            && (IsEntitled(after, user, name, t) <==>
                  exists i :: 0 <= i < |rows| && Covers(rows[i], user, name, t) && !(rows[i].source == source && rows[i].endAt.None?))
            && (forall w :: w in after && w.source == source ==> w.endAt.Some?)
            && |after| == |rows|
  {
    EndActiveLandsExactlyWhen(rows, source, endAt, now);
    var after := AllEnded(rows, source, endAt, now);
    forall i | 0 <= i < |rows|
      ensures Covers(after[i], user, name, t) <==> Covers(rows[i], user, name, t) && !(rows[i].source == source && rows[i].endAt.None?)
    {
    }
    if i :| 0 <= i < |rows| && Covers(rows[i], user, name, t) && !(rows[i].source == source && rows[i].endAt.None?) {
      assert Covers(after[i], user, name, t);
    }
  }

  /** The revoking update never touches a window that already has an end. */
  lemma EndActiveKeepsFinite(rows: Table, source: Source, endAt: Time, now: Time, w: Window)
    requires w in rows && (w.endAt.Some? || w.source != source) && EndActive(rows, source, endAt, now).Ok?
    ensures w in EndActive(rows, source, endAt, now).value
  {
    var i :| 0 <= i < |rows| && rows[i] == w;
    assert EndActive(rows, source, endAt, now).value[i] == w;
  }
}

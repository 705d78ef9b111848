/**
 Runs of one-off purchases. However the purchases of different users and entitlements are
 interleaved, the windows of one user and entitlement form one unbroken interval.
 */
module EntitlementRuns {
  import opened GoInt
  import opened Wrappers
  import opened Entitlements

  datatype Purchase = Purchase(user: UserId, name: string, days: int, source: Source, at: Time)

  function Bought(rows: Table, p: Purchase): Table {
    match AppendedRows(rows, p.user, p.name, p.days, p.source, p.at)
    case Ok(grown) => grown
    case Err(_) => rows
  }

  function AfterPurchases(purchases: seq<Purchase>): Table {
    if purchases == [] then [] else Bought(AfterPurchases(purchases[..|purchases| - 1]), purchases[|purchases| - 1])
  }

  /** The days a purchase pays for. */
  function DaysFor(p: Purchase, user: UserId, name: string): nat {
    if p.user == user && p.name == name && p.days > 0 then p.days else 0
  }

  /** The days paid for: what every purchase with a positive number of days adds up to. */
  function PaidDays(purchases: seq<Purchase>, user: UserId, name: string): nat {
    if purchases == [] then 0 else
    var p := purchases[|purchases| - 1];
    PaidDays(purchases[..|purchases| - 1], user, name) + DaysFor(p, user, name)
  }

  predicate DaysInRange(purchases: seq<Purchase>) {
    forall i :: 0 <= i < |purchases| ==> purchases[i].days <= MAX_DAYS
  }

  /** The windows of one user and entitlement, in the order they were granted. */
  function WindowsOf(rows: Table, user: UserId, name: string): seq<Window> {
    if rows == [] then [] else
    var w := rows[|rows| - 1];
    WindowsOf(rows[..|rows| - 1], user, name) + if w.user == user && w.name == name then [w] else []
  }

  lemma {:induction false} WindowsOfMembers(rows: Table, user: UserId, name: string, w: Window)
    ensures w in WindowsOf(rows, user, name) <==> w in rows && w.user == user && w.name == name
  {
    if rows != [] {
      WindowsOfMembers(rows[..|rows| - 1], user, name, w);
      assert rows == rows[..|rows| - 1] + [rows[|rows| - 1]];
    }
  }

  lemma WindowsOfGrown(rows: Table, w: Window, user: UserId, name: string)
    ensures WindowsOf(rows + [w], user, name) == WindowsOf(rows, user, name) + if w.user == user && w.name == name then [w] else []
  {
    assert (rows + [w])[..|rows|] == rows;
  }

  /** Finite unrevoked windows, each starting where the one before ends. */
  predicate Chain(ws: seq<Window>) {
    forall i :: 0 <= i < |ws| ==> Linked(ws, i)
  }

  predicate Linked(ws: seq<Window>, i: nat)
    requires i < |ws|
  {
    && ws[i].revokedAt.None? && ws[i].endAt.Some? && ws[i].startAt < ws[i].endAt.value
    && (i > 0 ==> ws[i - 1].endAt == Some(ws[i].startAt))
  }

  lemma ChainIsOrdered(ws: seq<Window>, i: nat, j: nat)
    requires Chain(ws) && i < j < |ws|
    ensures ws[i].endAt.Some? && ws[i].endAt.value <= ws[j].startAt
    decreases j
  {
    assert Linked(ws, j) && Linked(ws, j - 1);
    if i < j - 1 {
      ChainIsOrdered(ws, i, j - 1);
    }
  }

  lemma ChainHasNoGap(ws: seq<Window>, t: Time)
    requires Chain(ws) && ws != [] && ws[0].startAt <= t && LastEnd(ws) > t
    ensures exists i :: 0 <= i < |ws| && Holds(ws[i], t)
  {
    var last := |ws| - 1;
    assert Linked(ws, last);
    if t < ws[last].startAt {
      ChainFront(ws);
      assert Linked(ws, last - 1);
      ChainHasNoGap(ws[..last], t);
      var i :| 0 <= i < last && Holds(ws[..last][i], t);
      assert Holds(ws[i], t);
    } else {
      assert Holds(ws[last], t);
    }
  }

  predicate Holds(w: Window, t: Time) {
    w.startAt <= t && w.endAt.Some? && t < w.endAt.value
  }

  /** Where a chain ends. */
  function LastEnd(ws: seq<Window>): Time
    requires Chain(ws) && ws != []
  {
    assert Linked(ws, |ws| - 1);
    ws[|ws| - 1].endAt.value
  }

  lemma ChainFront(ws: seq<Window>)
    requires Chain(ws) && ws != []
    ensures Chain(ws[..|ws| - 1])
  {
    var front := ws[..|ws| - 1];
    forall i | 0 <= i < |front| ensures Linked(front, i) {
      assert Linked(ws, i);
    }
  }

  lemma ChainGrows(ws: seq<Window>, w: Window)
    requires Chain(ws) && w.revokedAt.None? && w.endAt.Some? && w.startAt < w.endAt.value
    requires ws != [] ==> w.startAt == LastEnd(ws)
    ensures Chain(ws + [w]) && LastEnd(ws + [w]) == w.endAt.value
  {
    forall i | 0 <= i < |ws + [w]| ensures Linked(ws + [w], i) {
      if i < |ws| {
        assert Linked(ws, i);
      } else if ws != [] {
        assert Linked(ws, |ws| - 1);
      }
    }
  }

  lemma LastStartsLast(ws: seq<Window>, w: Window)
    requires Chain(ws) && ws != [] && w in ws && ws[|ws| - 1].startAt <= w.startAt
    ensures w == ws[|ws| - 1]
  {
    var k :| 0 <= k < |ws| && ws[k] == w;
    assert Linked(ws, k);
    if k < |ws| - 1 {
      ChainIsOrdered(ws, k, |ws| - 1);
    }
  }

  /** In a chain the latest unrevoked window is the last one granted. */
  lemma LatestIsLast(rows: Table, user: UserId, name: string)
    requires Chain(WindowsOf(rows, user, name))
    ensures var ws := WindowsOf(rows, user, name);
            GetLatestActive(rows, user, name) == if ws == [] then None else Some(ws[|ws| - 1])
  {
    var ws := WindowsOf(rows, user, name);
    var latest := GetLatestActive(rows, user, name);
    if ws != [] {
      assert Linked(ws, |ws| - 1);
      WindowsOfMembers(rows, user, name, ws[|ws| - 1]);
      WindowsOfMembers(rows, user, name, latest.value);
      LastStartsLast(ws, latest.value);
    } else if latest.Some? {
      WindowsOfMembers(rows, user, name, latest.value);
    }
  }

  /** Where the next window of a user and name starts. */
  function NextStart(rows: Table, user: UserId, name: string, now: Time): Time
    requires Chain(WindowsOf(rows, user, name))
  {
    var ws := WindowsOf(rows, user, name);
    if ws == [] then now else LastEnd(ws)
  }

  lemma NextStartIsFree(rows: Table, user: UserId, name: string, now: Time, w: Window)
    requires Chain(WindowsOf(rows, user, name)) && w in rows && w.user == user && w.name == name
    ensures w.endAt.Some? && w.startAt < NextStart(rows, user, name, now)
  {
    var ws := WindowsOf(rows, user, name);
    WindowsOfMembers(rows, user, name, w);
    var k :| 0 <= k < |ws| && ws[k] == w;
    assert Linked(ws, k);
    if k < |ws| - 1 {
      ChainIsOrdered(ws, k, |ws| - 1);
      assert Linked(ws, |ws| - 1);
    }
  }

  function NextWindow(rows: Table, p: Purchase): Window
    requires Chain(WindowsOf(rows, p.user, p.name))
  {
    var start := NextStart(rows, p.user, p.name, p.at);
    Window(p.user, p.name, start, Some(start + Days(p.days)), p.source, None)
  }

  lemma PurchaseRow(rows: Table, p: Purchase)
    requires Chain(WindowsOf(rows, p.user, p.name)) && 0 < p.days <= MAX_DAYS
    ensures Bought(rows, p) == rows + [NextWindow(rows, p)]
  {
    var start, w := NextStart(rows, p.user, p.name, p.at), NextWindow(rows, p);
    forall v | v in rows && v.user == p.user && v.name == p.name
      ensures v.endAt.Some? && v.startAt < start
    {
      NextStartIsFree(rows, p.user, p.name, p.at, v);
    }
    assert !HasActiveIndefinite(rows, p.user, p.name, p.at);
    assert !Conflicts(rows, w);
    assert Insert(rows, w) == Ok(rows + [w]);
    assert AppendedRows(rows, p.user, p.name, p.days, p.source, p.at) == Insert(rows, w) by {
      LatestIsLast(rows, p.user, p.name);
      DaysDurationExact(p.days);
    }
  }

  /** A chain whose total length is the days given. */
  predicate UnbrokenFor(ws: seq<Window>, days: nat) {
    && Chain(ws)
    && (ws == [] <==> days == 0)
    && (ws != [] ==> LastEnd(ws) == ws[0].startAt + Days(days))
  }

  lemma ChainLengthens(ws: seq<Window>, after: seq<Window>, w: Window, days: nat, more: nat)
    requires UnbrokenFor(ws, days) && after == ws + [w]
    requires w.revokedAt.None? && w.endAt == Some(w.startAt + Days(more)) && more > 0
    requires ws != [] ==> w.startAt == LastEnd(ws)
    ensures UnbrokenFor(after, days + more)
  {
    ChainGrows(ws, w);
  }

  lemma PurchaseWindows(rows: Table, p: Purchase)
    requires Chain(WindowsOf(rows, p.user, p.name)) && 0 < p.days <= MAX_DAYS
    ensures WindowsOf(Bought(rows, p), p.user, p.name) == WindowsOf(rows, p.user, p.name) + [NextWindow(rows, p)]
  {
    PurchaseRow(rows, p);
    WindowsOfGrown(rows, NextWindow(rows, p), p.user, p.name);
  }

  lemma PurchaseElsewhere(rows: Table, p: Purchase, user: UserId, name: string)
    requires !(p.user == user && p.name == name && p.days > 0)
    ensures WindowsOf(Bought(rows, p), user, name) == WindowsOf(rows, user, name)
  {
    var spec := AppendedRows(rows, p.user, p.name, p.days, p.source, p.at);
    if spec.Ok? {
      WindowsOfGrown(rows, spec.value[|rows|], user, name);
    }
  }

  lemma {:induction false} PurchasesUnbroken(purchases: seq<Purchase>, user: UserId, name: string)
    requires DaysInRange(purchases)
    ensures UnbrokenFor(WindowsOf(AfterPurchases(purchases), user, name), PaidDays(purchases, user, name))
  {
    if purchases != [] {
      var front, p := purchases[..|purchases| - 1], purchases[|purchases| - 1];
      PurchasesUnbroken(front, user, name);
      PurchaseKeepsUnbroken(AfterPurchases(front), p, user, name, PaidDays(front, user, name));
    }
  }

  lemma PurchaseKeepsUnbroken(rows: Table, p: Purchase, user: UserId, name: string, days: nat)
    requires UnbrokenFor(WindowsOf(rows, user, name), days) && p.days <= MAX_DAYS
    ensures UnbrokenFor(WindowsOf(Bought(rows, p), user, name), days + DaysFor(p, user, name))
  {
    if p.user == user && p.name == name && p.days > 0 {
      PurchaseGoesOn(rows, p, days);
    } else {
      PurchaseElsewhere(rows, p, user, name);
    }
  }

  lemma PurchaseGoesOn(rows: Table, p: Purchase, days: nat)
    requires UnbrokenFor(WindowsOf(rows, p.user, p.name), days) && 0 < p.days <= MAX_DAYS
    ensures UnbrokenFor(WindowsOf(Bought(rows, p), p.user, p.name), days + p.days)
  {
    PurchaseWindows(rows, p);
    ChainLengthens(WindowsOf(rows, p.user, p.name), WindowsOf(Bought(rows, p), p.user, p.name), NextWindow(rows, p), days, p.days);
  }

  /** A chain covers exactly the times from its first start to its last end. */
  lemma ChainCovers(ws: seq<Window>, t: Time)
    requires Chain(ws)
    ensures (exists i :: 0 <= i < |ws| && Holds(ws[i], t)) <==> ws != [] && ws[0].startAt <= t && t < LastEnd(ws)
  {
    if i :| 0 <= i < |ws| && Holds(ws[i], t) {
      assert Linked(ws, 0) && Linked(ws, |ws| - 1);
      if i > 0 {
        ChainIsOrdered(ws, 0, i);
      }
      if i < |ws| - 1 {
        ChainIsOrdered(ws, i, |ws| - 1);
      }
    }
    if ws != [] && ws[0].startAt <= t && t < LastEnd(ws) {
      ChainHasNoGap(ws, t);
    }
  }

  lemma EntitledByWindows(rows: Table, user: UserId, name: string, t: Time)
    requires Chain(WindowsOf(rows, user, name))
    ensures var ws := WindowsOf(rows, user, name);
            IsEntitled(rows, user, name, t) <==> exists i :: 0 <= i < |ws| && Holds(ws[i], t)
  {
    var ws := WindowsOf(rows, user, name);
    if i :| 0 <= i < |rows| && Covers(rows[i], user, name, t) {
      WindowsOfMembers(rows, user, name, rows[i]);
      var k :| 0 <= k < |ws| && ws[k] == rows[i];
      assert Linked(ws, k);
      assert Holds(ws[k], t);
    }
    if k :| 0 <= k < |ws| && Holds(ws[k], t) {
      assert Linked(ws, k);
      WindowsOfMembers(rows, user, name, ws[k]);
      var i :| 0 <= i < |rows| && rows[i] == ws[k];
      assert Covers(rows[i], user, name, t);
    }
  }

  /**
   After any sequence of purchases, of any users and names, the windows of one user and name abut
   and are pairwise disjoint, and together they give access for exactly the days paid, counted
   from the first window's start.
   */
  lemma PurchasesGiveExactlyThePaidInterval(purchases: seq<Purchase>, user: UserId, name: string, t: Time)
    requires DaysInRange(purchases)
    ensures var ws := WindowsOf(AfterPurchases(purchases), user, name);
            && (forall i :: 0 <= i < |ws| ==> Linked(ws, i))
            && (forall i, j :: 0 <= i < j < |ws| ==> ws[i].endAt.Some? && ws[i].endAt.value <= ws[j].startAt)
            && (IsEntitled(AfterPurchases(purchases), user, name, t) <==>
                ws != [] && ws[0].startAt <= t < ws[0].startAt + Days(PaidDays(purchases, user, name)))
  {
    var ws := WindowsOf(AfterPurchases(purchases), user, name);
    PurchasesUnbroken(purchases, user, name);
    forall i, j | 0 <= i < j < |ws| ensures ws[i].endAt.Some? && ws[i].endAt.value <= ws[j].startAt {
      ChainIsOrdered(ws, i, j);
    }
    EntitledByWindows(AfterPurchases(purchases), user, name, t);
    ChainCovers(ws, t);
  }

  /** The first window of a user and name starts when it was bought, and no later purchase moves it. */
  lemma FirstStartIsKept(purchases: seq<Purchase>, p: Purchase)
    requires DaysInRange(purchases) && 0 < p.days <= MAX_DAYS
    ensures var ws := WindowsOf(AfterPurchases(purchases), p.user, p.name);
            var after := WindowsOf(AfterPurchases(purchases + [p]), p.user, p.name);
            after != [] && after[0].startAt == if ws == [] then p.at else ws[0].startAt
  {
    var rows := AfterPurchases(purchases);
    assert (purchases + [p])[..|purchases|] == purchases;
    PurchasesUnbroken(purchases, p.user, p.name);
    PurchaseRow(rows, p);
    WindowsOfGrown(rows, Bought(rows, p)[|rows|], p.user, p.name);
  }
}

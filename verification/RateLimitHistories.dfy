/**
 What the limiter guarantees over whole histories of requests: at most `threshold` admissions per
 window, and at most twice that in any 60-second span, for both stores; in memory one less.
 */
module RateLimitHistories {
  import opened GoInt
  import opened Wrappers
  import opened RateLimit
  import opened Strings

  /** A request of one bucket and IP; the clock has moved `after` since the request before. */
  datatype Request = Request(bucket: string, ip: string, after: nat, lag: Option<nat>)

  /** An admission, with the window it was counted in. */
  datatype Grant = Grant(bucket: string, ip: string, at: Time, window: Time)

  predicate Mine(g: Grant, bucket: string, ip: string) {
    g.bucket == bucket && g.ip == ip
  }

  function InWindow(grants: seq<Grant>, bucket: string, ip: string, window: Time): nat {
    if grants == [] then 0 else
    var g := grants[|grants| - 1];
    InWindow(grants[..|grants| - 1], bucket, ip, window) + if Mine(g, bucket, ip) && g.window == window then 1 else 0
  }

  function InSpan(grants: seq<Grant>, bucket: string, ip: string, from: Time, to: Time): nat {
    if grants == [] then 0 else
    var g := grants[|grants| - 1];
    InSpan(grants[..|grants| - 1], bucket, ip, from, to) + if Mine(g, bucket, ip) && from <= g.at <= to then 1 else 0
  }

  /** Admissions of three different windows never fit into one 60-second span. */
  ghost predicate ThreeWindowsSpread(grants: seq<Grant>, bucket: string, ip: string) {
    forall x, y, z :: && 0 <= x < |grants| && 0 <= y < |grants| && 0 <= z < |grants|
                      && Mine(grants[x], bucket, ip) && Mine(grants[y], bucket, ip) && Mine(grants[z], bucket, ip)
                      && grants[x].window < grants[y].window < grants[z].window
      ==> grants[z].at - grants[x].at > WINDOW
  }

  predicate InSpanOf(g: Grant, bucket: string, ip: string, from: Time) {
    Mine(g, bucket, ip) && from <= g.at <= from + WINDOW
  }

  lemma {:induction false} SpanWithinTwoWindows(grants: seq<Grant>, bucket: string, ip: string, from: Time, v: Time, w: Time)
    requires v != w
    requires forall i :: 0 <= i < |grants| && InSpanOf(grants[i], bucket, ip, from) ==> grants[i].window == v || grants[i].window == w
    ensures InSpan(grants, bucket, ip, from, from + WINDOW) <= InWindow(grants, bucket, ip, v) + InWindow(grants, bucket, ip, w)
  {
    if grants != [] {
      var front := grants[..|grants| - 1];
      assert forall i :: 0 <= i < |front| ==> front[i] == grants[i];
      assert InSpanOf(grants[|grants| - 1], bucket, ip, from) ==> grants[|grants| - 1].window in {v, w};
      SpanWithinTwoWindows(front, bucket, ip, from, v, w);
    }
  }

  /** The counting argument both stores share. */
  lemma SpanBound(grants: seq<Grant>, bucket: string, ip: string, threshold: nat, from: Time)
    requires ThreeWindowsSpread(grants, bucket, ip)
    requires forall w :: InWindow(grants, bucket, ip, w) <= threshold
    ensures InSpan(grants, bucket, ip, from, from + WINDOW) <= 2 * threshold
  {
    if x :| 0 <= x < |grants| && InSpanOf(grants[x], bucket, ip, from) {
      var v := grants[x].window;
      if y :| 0 <= y < |grants| && InSpanOf(grants[y], bucket, ip, from) && grants[y].window != v {
        var w := grants[y].window;
        forall z | 0 <= z < |grants| && InSpanOf(grants[z], bucket, ip, from)
          ensures grants[z].window == v || grants[z].window == w
        {
          NoThirdWindow(grants, bucket, ip, from, x, y, z);
        }
        SpanWithinTwoWindows(grants, bucket, ip, from, v, w);
      } else {
        SpanWithinTwoWindows(grants, bucket, ip, from, v, v + 1);
      }
    } else {
      SpanWithinTwoWindows(grants, bucket, ip, from, 0, 1);
      NothingInSpan(grants, bucket, ip, from);
    }
  }

  lemma NoThirdWindow(grants: seq<Grant>, bucket: string, ip: string, from: Time, x: nat, y: nat, z: nat)
    requires ThreeWindowsSpread(grants, bucket, ip)
    requires x < |grants| && y < |grants| && z < |grants|
    requires InSpanOf(grants[x], bucket, ip, from) && InSpanOf(grants[y], bucket, ip, from) && InSpanOf(grants[z], bucket, ip, from)
    ensures grants[x].window == grants[y].window || grants[y].window == grants[z].window || grants[x].window == grants[z].window
  {
  }

  lemma {:induction false} NothingInSpan(grants: seq<Grant>, bucket: string, ip: string, from: Time)
    requires forall i :: 0 <= i < |grants| ==> !InSpanOf(grants[i], bucket, ip, from)
    ensures InSpan(grants, bucket, ip, from, from + WINDOW) == 0
  {
    if grants != [] {
      NothingInSpan(grants[..|grants| - 1], bucket, ip, from);
    }
  }

  lemma InWindowGrows(grants: seq<Grant>, g: Grant, bucket: string, ip: string, w: Time)
    ensures InWindow(grants + [g], bucket, ip, w)
         == InWindow(grants, bucket, ip, w) + if Mine(g, bucket, ip) && g.window == w then 1 else 0
  {
    assert (grants + [g])[..|grants|] == grants;
  }

  // ---- the in-memory store

  datatype Memory = Memory(counters: map<string, Counter>, grants: seq<Grant>, clock: Time)

  /** `limitOf` is the configured limit of a bucket. */
  function MemoryStep(limitOf: string -> int, s: Memory, r: Request): Memory {
    var now := s.clock + r.after;
    var c := CurrentCounter(s.counters, Key(r.bucket, r.ip), now);
    Memory(s.counters[Key(r.bucket, r.ip) := c.(count := c.count + 1)],
           if c.count < EffectiveLimit(limitOf(r.bucket)) then s.grants + [Grant(r.bucket, r.ip, now, c.reset)] else s.grants,
           now)
  }

  function MemoryRun(limitOf: string -> int, requests: seq<Request>): Memory {
    if requests == [] then Memory(map[], [], 0)
    else MemoryStep(limitOf, MemoryRun(limitOf, requests[..|requests| - 1]), requests[|requests| - 1])
  }

  predicate ColonFree(requests: seq<Request>) {
    forall i :: 0 <= i < |requests| ==> FreeOf(requests[i].bucket, ':')
  }

  function Capped(count: nat, threshold: nat): nat {
    if count < threshold then count else threshold
  }

  /** An admission lies in its window, and an older window ended before the current one began. */
  predicate GrantFits(g: Grant, c: Counter) {
    g.window - WINDOW <= g.at <= g.window && (g.window == c.reset || g.window < c.reset - WINDOW)
  }

  predicate Apart(g: Grant, h: Grant) {
    g.window < h.window ==> g.window < h.window - WINDOW
  }

  ghost predicate WindowsApart(grants: seq<Grant>, bucket: string, ip: string) {
    forall x, y :: 0 <= x < |grants| && 0 <= y < |grants| && Mine(grants[x], bucket, ip) && Mine(grants[y], bucket, ip) ==> Apart(grants[x], grants[y])
  }

  ghost predicate CountsMatch(s: Memory, bucket: string, ip: string, threshold: nat) {
    var key := Key(bucket, ip);
    && (forall w :: InWindow(s.grants, bucket, ip, w) <= threshold)
    && (key in s.counters ==> InWindow(s.grants, bucket, ip, s.counters[key].reset) == Capped(s.counters[key].count, threshold))
  }

  ghost predicate GrantsFit(s: Memory, bucket: string, ip: string) {
    var key := Key(bucket, ip);
    && WindowsApart(s.grants, bucket, ip)
    && (key in s.counters ==> s.counters[key].reset <= s.clock + WINDOW)
    && (forall i :: 0 <= i < |s.grants| && Mine(s.grants[i], bucket, ip) ==> key in s.counters && GrantFits(s.grants[i], s.counters[key]))
  }

  ghost predicate MemoryInv(s: Memory, bucket: string, ip: string, threshold: nat) {
    CountsMatch(s, bucket, ip, threshold) && GrantsFit(s, bucket, ip)
  }

  lemma {:induction false} NoGrantsInWindow(grants: seq<Grant>, bucket: string, ip: string, w: Time)
    requires forall i :: 0 <= i < |grants| && Mine(grants[i], bucket, ip) ==> grants[i].window != w
    ensures InWindow(grants, bucket, ip, w) == 0
  {
    if grants != [] {
      NoGrantsInWindow(grants[..|grants| - 1], bucket, ip, w);
    }
  }

  lemma OwnRequestKeepsCounts(limitOf: string -> int, s: Memory, r: Request)
    requires MemoryInv(s, r.bucket, r.ip, EffectiveLimit(limitOf(r.bucket)))
    ensures CountsMatch(MemoryStep(limitOf, s, r), r.bucket, r.ip, EffectiveLimit(limitOf(r.bucket)))
  {
    var now, key := s.clock + r.after, Key(r.bucket, r.ip);
    var c := CurrentCounter(s.counters, key, now);
    if key !in s.counters || now > s.counters[key].reset {
      NoGrantsInWindow(s.grants, r.bucket, r.ip, c.reset);
    }
    var g := Grant(r.bucket, r.ip, now, c.reset);
    forall w ensures InWindow(s.grants + [g], r.bucket, r.ip, w)
                  == InWindow(s.grants, r.bucket, r.ip, w) + if w == c.reset then 1 else 0
    {
      InWindowGrows(s.grants, g, r.bucket, r.ip, w);
    }
  }

  lemma OwnRequestKeepsFit(limitOf: string -> int, s: Memory, r: Request)
    requires GrantsFit(s, r.bucket, r.ip)
    ensures GrantsFit(MemoryStep(limitOf, s, r), r.bucket, r.ip)
  {
    var now, key := s.clock + r.after, Key(r.bucket, r.ip);
    var c := CurrentCounter(s.counters, key, now);
    var g := Grant(r.bucket, r.ip, now, c.reset);
    assert GrantFits(g, c);
    forall i | 0 <= i < |s.grants| && Mine(s.grants[i], r.bucket, r.ip)
      ensures GrantFits(s.grants[i], c) && Apart(s.grants[i], g) && Apart(g, s.grants[i])
    {
      assert GrantFits(s.grants[i], s.counters[key]);
    }
  }

  lemma OtherRequestKeepsInv(limitOf: string -> int, s: Memory, r: Request, bucket: string, ip: string, threshold: nat)
    requires MemoryInv(s, bucket, ip, threshold) && FreeOf(r.bucket, ':') && FreeOf(bucket, ':')
    requires r.bucket != bucket || r.ip != ip
    ensures MemoryInv(MemoryStep(limitOf, s, r), bucket, ip, threshold)
  {
    if Key(r.bucket, r.ip) == Key(bucket, ip) {
      FirstFieldIsUnique(r.bucket, r.ip, bucket, ip, ':');
    }
    var c := CurrentCounter(s.counters, Key(r.bucket, r.ip), s.clock + r.after);
    var g := Grant(r.bucket, r.ip, s.clock + r.after, c.reset);
    forall w ensures InWindow(s.grants + [g], bucket, ip, w) == InWindow(s.grants, bucket, ip, w) {
      InWindowGrows(s.grants, g, bucket, ip, w);
    }
  }

  lemma MemoryStepKeepsInv(limitOf: string -> int, s: Memory, r: Request, bucket: string, ip: string)
    requires MemoryInv(s, bucket, ip, EffectiveLimit(limitOf(bucket))) && FreeOf(r.bucket, ':') && FreeOf(bucket, ':')
    ensures MemoryInv(MemoryStep(limitOf, s, r), bucket, ip, EffectiveLimit(limitOf(bucket)))
  {
    if r.bucket == bucket && r.ip == ip {
      OwnRequestKeepsCounts(limitOf, s, r);
      OwnRequestKeepsFit(limitOf, s, r);
    } else {
      OtherRequestKeepsInv(limitOf, s, r, bucket, ip, EffectiveLimit(limitOf(bucket)));
    }
  }

  lemma {:induction false} MemoryRunKeepsInv(limitOf: string -> int, requests: seq<Request>, bucket: string, ip: string)
    requires ColonFree(requests) && FreeOf(bucket, ':')
    ensures MemoryInv(MemoryRun(limitOf, requests), bucket, ip, EffectiveLimit(limitOf(bucket)))
  {
    if requests != [] {
      var front, r := requests[..|requests| - 1], requests[|requests| - 1];
      MemoryRunKeepsInv(limitOf, front, bucket, ip);
      MemoryStepKeepsInv(limitOf, MemoryRun(limitOf, front), r, bucket, ip);
    }
  }

  lemma ApartWindowsSpread(s: Memory, bucket: string, ip: string)
    requires GrantsFit(s, bucket, ip)
    ensures ThreeWindowsSpread(s.grants, bucket, ip)
  {
    forall x, y, z | && 0 <= x < |s.grants| && 0 <= y < |s.grants| && 0 <= z < |s.grants|
                     && Mine(s.grants[x], bucket, ip) && Mine(s.grants[y], bucket, ip) && Mine(s.grants[z], bucket, ip)
                     && s.grants[x].window < s.grants[y].window < s.grants[z].window
      ensures s.grants[z].at - s.grants[x].at > WINDOW
    {
      assert Apart(s.grants[x], s.grants[y]) && Apart(s.grants[y], s.grants[z]);
    }
  }

  /** The window was opened by an admission at its start. */
  ghost predicate Opened(grants: seq<Grant>, bucket: string, ip: string, window: Time) {
    exists i :: 0 <= i < |grants| && Mine(grants[i], bucket, ip) && grants[i].window == window && grants[i].at == window - WINDOW
  }

  ghost predicate AllOpened(s: Memory, bucket: string, ip: string) {
    && (Key(bucket, ip) in s.counters ==> Opened(s.grants, bucket, ip, s.counters[Key(bucket, ip)].reset))
    && (forall i :: 0 <= i < |s.grants| && Mine(s.grants[i], bucket, ip) ==> Opened(s.grants, bucket, ip, s.grants[i].window))
  }

  lemma OpenedStays(grants: seq<Grant>, more: seq<Grant>, bucket: string, ip: string, window: Time)
    requires grants <= more && Opened(grants, bucket, ip, window)
    ensures Opened(more, bucket, ip, window)
  {
    var i :| 0 <= i < |grants| && Mine(grants[i], bucket, ip) && grants[i].window == window && grants[i].at == window - WINDOW;
    assert more[i] == grants[i];
  }

  lemma MemoryStepKeepsOpened(limitOf: string -> int, s: Memory, r: Request, bucket: string, ip: string)
    requires AllOpened(s, bucket, ip) && FreeOf(r.bucket, ':') && FreeOf(bucket, ':')
    ensures AllOpened(MemoryStep(limitOf, s, r), bucket, ip)
  {
    var t, now := MemoryStep(limitOf, s, r), s.clock + r.after;
    var c := CurrentCounter(s.counters, Key(r.bucket, r.ip), now);
    if Key(r.bucket, r.ip) == Key(bucket, ip) {
      FirstFieldIsUnique(r.bucket, r.ip, bucket, ip, ':');
      if c.reset == now + WINDOW && c.count == 0 {
        assert Mine(t.grants[|s.grants|], bucket, ip);
        assert Opened(t.grants, bucket, ip, c.reset);
      } else {
        OpenedStays(s.grants, t.grants, bucket, ip, c.reset);
      }
    } else if Key(bucket, ip) in s.counters {
      OpenedStays(s.grants, t.grants, bucket, ip, s.counters[Key(bucket, ip)].reset);
    }
    forall i | 0 <= i < |s.grants| && Mine(s.grants[i], bucket, ip) ensures Opened(t.grants, bucket, ip, s.grants[i].window) {
      OpenedStays(s.grants, t.grants, bucket, ip, s.grants[i].window);
    }
  }

  lemma {:induction false} MemoryRunKeepsOpened(limitOf: string -> int, requests: seq<Request>, bucket: string, ip: string)
    requires ColonFree(requests) && FreeOf(bucket, ':')
    ensures AllOpened(MemoryRun(limitOf, requests), bucket, ip)
  {
    if requests != [] {
      MemoryRunKeepsOpened(limitOf, requests[..|requests| - 1], bucket, ip);
      MemoryStepKeepsOpened(limitOf, MemoryRun(limitOf, requests[..|requests| - 1]), requests[|requests| - 1], bucket, ip);
    }
  }

  lemma {:induction false} SpanMissesOne(grants: seq<Grant>, bucket: string, ip: string, from: Time, v: Time, w: Time, x: nat)
    requires v != w && x < |grants| && Mine(grants[x], bucket, ip) && grants[x].window == v && !InSpanOf(grants[x], bucket, ip, from)
    requires forall i :: 0 <= i < |grants| && InSpanOf(grants[i], bucket, ip, from) ==> grants[i].window == v || grants[i].window == w
    ensures InSpan(grants, bucket, ip, from, from + WINDOW) + 1 <= InWindow(grants, bucket, ip, v) + InWindow(grants, bucket, ip, w)
  {
    var front := grants[..|grants| - 1];
    assert forall i :: 0 <= i < |front| ==> front[i] == grants[i];
    assert InSpanOf(grants[|grants| - 1], bucket, ip, from) ==> grants[|grants| - 1].window in {v, w};
    if x == |front| {
      SpanWithinTwoWindows(front, bucket, ip, from, v, w);
    } else {
      SpanMissesOne(front, bucket, ip, from, v, w, x);
    }
  }

  lemma {:induction false} SpanWithinOneWindow(grants: seq<Grant>, bucket: string, ip: string, from: Time, v: Time)
    requires forall i :: 0 <= i < |grants| && InSpanOf(grants[i], bucket, ip, from) ==> grants[i].window == v
    ensures InSpan(grants, bucket, ip, from, from + WINDOW) <= InWindow(grants, bucket, ip, v)
  {
    if grants != [] {
      var front := grants[..|grants| - 1];
      assert forall i :: 0 <= i < |front| ==> front[i] == grants[i];
      assert InSpanOf(grants[|grants| - 1], bucket, ip, from) ==> grants[|grants| - 1].window == v;
      SpanWithinOneWindow(front, bucket, ip, from, v);
    }
  }

  /** An admission of the later of two windows comes after the earlier one has run out, so a span that has one misses the earlier one's first. */
  lemma LaterMissesFirst(s: Memory, bucket: string, ip: string, from: Time, early: nat, late: nat)
    requires GrantsFit(s, bucket, ip) && AllOpened(s, bucket, ip) && early < |s.grants| && late < |s.grants|
    requires InSpanOf(s.grants[early], bucket, ip, from) && InSpanOf(s.grants[late], bucket, ip, from)
    requires s.grants[early].window < s.grants[late].window
    ensures exists x :: 0 <= x < |s.grants| && Mine(s.grants[x], bucket, ip) && s.grants[x].window == s.grants[early].window
                        && !InSpanOf(s.grants[x], bucket, ip, from)
  {
    var v := s.grants[early].window;
    assert Apart(s.grants[early], s.grants[late]) && GrantFits(s.grants[late], s.counters[Key(bucket, ip)]);
    assert Opened(s.grants, bucket, ip, v);
    var x :| 0 <= x < |s.grants| && Mine(s.grants[x], bucket, ip) && s.grants[x].window == v && s.grants[x].at == v - WINDOW;
    assert !InSpanOf(s.grants[x], bucket, ip, from);
  }

  /** The in-memory windows start with a request, so a span never gets two of them whole. */
  lemma MemorySpanBound(s: Memory, bucket: string, ip: string, threshold: nat, from: Time)
    requires MemoryInv(s, bucket, ip, threshold) && AllOpened(s, bucket, ip) && threshold >= 1
    ensures InSpan(s.grants, bucket, ip, from, from + WINDOW) <= 2 * threshold - 1
  {
    if x :| 0 <= x < |s.grants| && InSpanOf(s.grants[x], bucket, ip, from) {
      var v := s.grants[x].window;
      if y :| 0 <= y < |s.grants| && InSpanOf(s.grants[y], bucket, ip, from) && s.grants[y].window != v {
        TwoWindowsInSpan(s, bucket, ip, threshold, from, if v < s.grants[y].window then x else y, if v < s.grants[y].window then y else x);
      } else {
        SpanWithinOneWindow(s.grants, bucket, ip, from, v);
      }
    } else {
      NothingInSpan(s.grants, bucket, ip, from);
    }
  }

  lemma TwoWindowsInSpan(s: Memory, bucket: string, ip: string, threshold: nat, from: Time, early: nat, late: nat)
    requires MemoryInv(s, bucket, ip, threshold) && AllOpened(s, bucket, ip) && early < |s.grants| && late < |s.grants|
    requires InSpanOf(s.grants[early], bucket, ip, from) && InSpanOf(s.grants[late], bucket, ip, from)
    requires s.grants[early].window < s.grants[late].window
    ensures InSpan(s.grants, bucket, ip, from, from + WINDOW) <= 2 * threshold - 1
  {
    var v, w := s.grants[early].window, s.grants[late].window;
    LaterMissesFirst(s, bucket, ip, from, early, late);
    var x :| 0 <= x < |s.grants| && Mine(s.grants[x], bucket, ip) && s.grants[x].window == v && !InSpanOf(s.grants[x], bucket, ip, from);
    ApartWindowsSpread(s, bucket, ip);
    forall z | 0 <= z < |s.grants| && InSpanOf(s.grants[z], bucket, ip, from)
      ensures s.grants[z].window == v || s.grants[z].window == w
    {
      NoThirdWindow(s.grants, bucket, ip, from, early, late, z);
    }
    SpanMissesOne(s.grants, bucket, ip, from, v, w, x);
  }

  /**
   For every history, the in-memory limiter admits at most the configured limit per window, and one
   less than twice it in any 60 seconds; a limit that is not positive stands for 60.
   */
  lemma MemoryLimits(limitOf: string -> int, requests: seq<Request>, bucket: string, ip: string, w: Time, from: Time)
    requires ColonFree(requests) && FreeOf(bucket, ':')
    ensures var grants := MemoryRun(limitOf, requests).grants;
            var limit := if limitOf(bucket) > 0 then limitOf(bucket) else 60;
            && InWindow(grants, bucket, ip, w) <= limit
            && InSpan(grants, bucket, ip, from, from + 60_000_000_000) <= 2 * limit - 1
  {
    MemoryRunKeepsInv(limitOf, requests, bucket, ip);
    MemoryRunKeepsOpened(limitOf, requests, bucket, ip);
    MemorySpanBound(MemoryRun(limitOf, requests), bucket, ip, EffectiveLimit(limitOf(bucket)), from);
  }

  lemma CurrentWindowCount(s: Memory, bucket: string, ip: string, threshold: nat, now: Time)
    requires MemoryInv(s, bucket, ip, threshold)
    ensures var c := CurrentCounter(s.counters, Key(bucket, ip), now);
            InWindow(s.grants, bucket, ip, c.reset) == Capped(c.count, threshold)
  {
    var c := CurrentCounter(s.counters, Key(bucket, ip), now);
    if Key(bucket, ip) !in s.counters || now > s.counters[Key(bucket, ip)].reset {
      NoGrantsInWindow(s.grants, bucket, ip, c.reset);
    }
  }

  /** A window of this client that still runs at a time: one it was admitted in, and that ends no earlier. */
  predicate IsRunning(g: Grant, bucket: string, ip: string, now: Time) {
    Mine(g, bucket, ip) && now <= g.window
  }

  /** The running window is the one the counter is in; without one, the next request opens a window. */
  lemma RunningIsCurrent(s: Memory, bucket: string, ip: string, threshold: nat, now: Time)
    requires MemoryInv(s, bucket, ip, threshold) && AllOpened(s, bucket, ip) && s.clock <= now
    ensures var c := CurrentCounter(s.counters, Key(bucket, ip), now);
            && (forall i :: 0 <= i < |s.grants| && IsRunning(s.grants[i], bucket, ip, now) ==> s.grants[i].window == c.reset)
            && ((exists i :: 0 <= i < |s.grants| && IsRunning(s.grants[i], bucket, ip, now)) || (c.count == 0 && c.reset == now + WINDOW))
  {
    var key := Key(bucket, ip);
    forall i | 0 <= i < |s.grants| && IsRunning(s.grants[i], bucket, ip, now)
      ensures s.grants[i].window == CurrentCounter(s.counters, key, now).reset
    {
      assert GrantFits(s.grants[i], s.counters[key]);
    }
    if key in s.counters && now <= s.counters[key].reset {
      assert Opened(s.grants, bucket, ip, s.counters[key].reset);
      var i :| 0 <= i < |s.grants| && Mine(s.grants[i], bucket, ip) && s.grants[i].window == s.counters[key].reset;
      assert IsRunning(s.grants[i], bucket, ip, now);
    }
  }

  /**
   It never refuses early, after any history. While a window of the client runs, a request is admitted
   exactly when that window has admitted fewer than the limit; otherwise it is admitted and opens a
   window of 60 seconds.
   */
  lemma MemoryAdmitsUpToThreshold(limitOf: string -> int, requests: seq<Request>, s: Memory, r: Request, t: Memory)
    requires ColonFree(requests) && FreeOf(r.bucket, ':') && s == MemoryRun(limitOf, requests) && t == MemoryStep(limitOf, s, r)
    ensures var now := s.clock + r.after;
            var limit := if limitOf(r.bucket) > 0 then limitOf(r.bucket) else 60;
            && (forall i :: 0 <= i < |s.grants| && IsRunning(s.grants[i], r.bucket, r.ip, now) ==>
                  t.grants == if InWindow(s.grants, r.bucket, r.ip, s.grants[i].window) < limit
                              then s.grants + [Grant(r.bucket, r.ip, now, s.grants[i].window)] else s.grants)
            && ((forall i :: 0 <= i < |s.grants| ==> !IsRunning(s.grants[i], r.bucket, r.ip, now)) ==>
                  t.grants == s.grants + [Grant(r.bucket, r.ip, now, now + 60_000_000_000)])
  {
    MemoryRunKeepsInv(limitOf, requests, r.bucket, r.ip);
    MemoryRunKeepsOpened(limitOf, requests, r.bucket, r.ip);
    RunningIsCurrent(s, r.bucket, r.ip, EffectiveLimit(limitOf(r.bucket)), s.clock + r.after);
    CurrentWindowDecides(limitOf, s, r);
  }

  lemma CurrentWindowDecides(limitOf: string -> int, s: Memory, r: Request)
    requires MemoryInv(s, r.bucket, r.ip, EffectiveLimit(limitOf(r.bucket)))
    ensures var now := s.clock + r.after;
            var c := CurrentCounter(s.counters, Key(r.bucket, r.ip), now);
            && MemoryStep(limitOf, s, r).grants
               == (if InWindow(s.grants, r.bucket, r.ip, c.reset) < EffectiveLimit(limitOf(r.bucket))
                   then s.grants + [Grant(r.bucket, r.ip, now, c.reset)] else s.grants)
            && (c.count == 0 ==> InWindow(s.grants, r.bucket, r.ip, c.reset) == 0)
  {
    CurrentWindowCount(s, r.bucket, r.ip, EffectiveLimit(limitOf(r.bucket)), s.clock + r.after);
  }

  // ---- the Redis store

  datatype Redis = Redis(entries: map<RedisKey, Entry>, grants: seq<Grant>, clock: nat)

  function RedisStep(limitOf: string -> int, s: Redis, r: Request): Redis {
    var now := s.clock + r.after;
    var key := RedisKey(r.bucket, r.ip, Minute(now));
    var entry := LiveEntry(s.entries, key, now);
    Redis(Incremented(s.entries, key, r.lag, now),
          if entry.count < EffectiveLimit(limitOf(r.bucket)) then s.grants + [Grant(r.bucket, r.ip, now, Minute(now))] else s.grants,
          now)
  }

  function RedisRun(limitOf: string -> int, requests: seq<Request>): Redis {
    if requests == [] then Redis(map[], [], 0)
    else RedisStep(limitOf, RedisRun(limitOf, requests[..|requests| - 1]), requests[|requests| - 1])
  }

  lemma MinuteBounds(now: nat)
    ensures Minute(now) * 60_000_000_000 <= now < (Minute(now) + 1) * 60_000_000_000
  {
  }

  lemma MinuteMonotone(now: nat, later: nat)
    requires now <= later
    ensures Minute(now) <= Minute(later)
  {
    MinuteBounds(now);
    MinuteBounds(later);
  }

  function CountOf(entries: map<RedisKey, Entry>, key: RedisKey): nat {
    if key in entries then entries[key].count else 0
  }

  /** The TTL set on a window's first increment cannot run out before the window does. */
  predicate OutlivesWindow(e: Entry, minute: nat) {
    e.expiresAt.Some? ==> (minute + 1) * 60_000_000_000 <= e.expiresAt.value
  }

  predicate MinuteGrant(g: Grant) {
    g.window >= 0 && g.window * 60_000_000_000 <= g.at < (g.window + 1) * 60_000_000_000
  }

  ghost predicate EntriesOutlive(entries: map<RedisKey, Entry>) {
    forall key :: key in entries ==> OutlivesWindow(entries[key], key.minute)
  }

  ghost predicate MinuteGrants(grants: seq<Grant>) {
    forall i :: 0 <= i < |grants| ==> MinuteGrant(grants[i])
  }

  /** From the running minute on, the stored count says how many requests that minute has admitted. */
  ghost predicate MinutesCounted(s: Redis, minute: nat, bucket: string, ip: string, threshold: nat) {
    && (forall w :: InWindow(s.grants, bucket, ip, w) <= threshold)
    && (forall m: nat :: m >= minute ==>
          InWindow(s.grants, bucket, ip, m) == Capped(CountOf(s.entries, RedisKey(bucket, ip, m)), threshold))
  }

  ghost predicate RedisInv(s: Redis, bucket: string, ip: string, threshold: nat) {
    MinutesCounted(s, Minute(s.clock), bucket, ip, threshold) && EntriesOutlive(s.entries) && MinuteGrants(s.grants)
  }

  /** An entry of the running minute has not expired. */
  lemma EntryIsLive(entries: map<RedisKey, Entry>, key: RedisKey, now: nat)
    requires EntriesOutlive(entries) && key.minute == Minute(now)
    ensures LiveEntry(entries, key, now).count == CountOf(entries, key)
    ensures key in entries ==> LiveEntry(entries, key, now) == entries[key]
  {
    MinuteBounds(now);
  }

  lemma IncrementKeepsEntries(entries: map<RedisKey, Entry>, key: RedisKey, lag: Option<nat>, now: nat)
    requires EntriesOutlive(entries) && key.minute == Minute(now)
    ensures var after := Incremented(entries, key, lag, now);
            && EntriesOutlive(after) && CountOf(after, key) == CountOf(entries, key) + 1
            && forall k :: k != key ==> CountOf(after, k) == CountOf(entries, k)
  {
    MinuteBounds(now);
    EntryIsLive(entries, key, now);
  }

  lemma GrantKeepsCounts(s: Redis, t: Redis, minute: nat, bucket: string, ip: string, threshold: nat, g: Grant)
    requires MinutesCounted(s, minute, bucket, ip, threshold) && g.window == minute
    requires var key := RedisKey(g.bucket, g.ip, minute);
             && CountOf(t.entries, key) == CountOf(s.entries, key) + 1
             && (forall k :: k != key ==> CountOf(t.entries, k) == CountOf(s.entries, k))
    requires t.grants == s.grants || t.grants == s.grants + [g]
    requires Mine(g, bucket, ip) ==> (t.grants == s.grants <==> CountOf(s.entries, RedisKey(bucket, ip, minute)) >= threshold)
    ensures MinutesCounted(t, minute, bucket, ip, threshold)
  {
    forall w ensures InWindow(s.grants + [g], bucket, ip, w)
                  == InWindow(s.grants, bucket, ip, w) + if Mine(g, bucket, ip) && w == minute then 1 else 0
    {
      InWindowGrows(s.grants, g, bucket, ip, w);
    }
  }

  lemma RedisStepKeepsInv(limitOf: string -> int, s: Redis, r: Request, bucket: string, ip: string)
    requires RedisInv(s, bucket, ip, EffectiveLimit(limitOf(bucket)))
    ensures RedisInv(RedisStep(limitOf, s, r), bucket, ip, EffectiveLimit(limitOf(bucket)))
  {
    var now := s.clock + r.after;
    var minute := Minute(now);
    var key := RedisKey(r.bucket, r.ip, minute);
    var g := Grant(r.bucket, r.ip, now, minute);
    MinuteMonotone(s.clock, now);
    assert MinuteGrant(g) by {
      MinuteBounds(now);
    }
    EntryIsLive(s.entries, key, now);
    IncrementKeepsEntries(s.entries, key, r.lag, now);
    GrantKeepsCounts(s, RedisStep(limitOf, s, r), minute, bucket, ip, EffectiveLimit(limitOf(bucket)), g);
  }

  lemma {:induction false} RedisRunKeepsInv(limitOf: string -> int, requests: seq<Request>, bucket: string, ip: string)
    ensures RedisInv(RedisRun(limitOf, requests), bucket, ip, EffectiveLimit(limitOf(bucket)))
  {
    if requests != [] {
      RedisRunKeepsInv(limitOf, requests[..|requests| - 1], bucket, ip);
      RedisStepKeepsInv(limitOf, RedisRun(limitOf, requests[..|requests| - 1]), requests[|requests| - 1], bucket, ip);
    }
  }

  /** The same two bounds for the Redis minute windows, however late or often the EXPIRE is lost. */
  lemma RedisLimits(limitOf: string -> int, requests: seq<Request>, bucket: string, ip: string, w: Time, from: Time)
    ensures var grants := RedisRun(limitOf, requests).grants;
            var limit := if limitOf(bucket) > 0 then limitOf(bucket) else 60;
            && InWindow(grants, bucket, ip, w) <= limit
            && InSpan(grants, bucket, ip, from, from + 60_000_000_000) <= 2 * limit
  {
    RedisRunKeepsInv(limitOf, requests, bucket, ip);
    SpanBound(RedisRun(limitOf, requests).grants, bucket, ip, EffectiveLimit(limitOf(bucket)), from);
  }

  /** A request is admitted exactly when its clock minute has admitted fewer than the limit, whatever became of the EXPIREs. */
  lemma RedisAdmitsUpToThreshold(limitOf: string -> int, requests: seq<Request>, s: Redis, r: Request)
    requires s == RedisRun(limitOf, requests)
    ensures var now := s.clock + r.after;
            var minute := now / 60_000_000_000;
            var limit := if limitOf(r.bucket) > 0 then limitOf(r.bucket) else 60;
            RedisStep(limitOf, s, r).grants
            == if InWindow(s.grants, r.bucket, r.ip, minute) < limit then s.grants + [Grant(r.bucket, r.ip, now, minute)] else s.grants
  {
    var now := s.clock + r.after;
    RedisRunKeepsInv(limitOf, requests, r.bucket, r.ip);
    MinuteMonotone(s.clock, now);
    MinuteBounds(now);
    assert Minute(now) == now / 60_000_000_000;
    EntryIsLive(s.entries, RedisKey(r.bucket, r.ip, Minute(now)), now);
  }

  /** A counter that has been set to expire is still there, with its count, until its window ends. */
  lemma {:induction false} CounterSurvivesItsWindow(limitOf: string -> int, requests: seq<Request>, bucket: string, ip: string, now: nat)
    requires RedisRun(limitOf, requests).clock <= now
    ensures var s := RedisRun(limitOf, requests);
            var key := RedisKey(bucket, ip, Minute(now));
            key in s.entries ==> LiveEntry(s.entries, key, now) == s.entries[key]
  {
    RedisRunKeepsInv(limitOf, requests, bucket, ip);
    EntryIsLive(RedisRun(limitOf, requests).entries, RedisKey(bucket, ip, Minute(now)), now);
  }
}

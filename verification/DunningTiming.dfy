/**
 Runs of the sweep and attempt loop. Sweeps wait until the attempts of the sweep before are done,
 and apart from the first failure of a subscription all failures come from attempts; every other
 lifecycle operation may happen at any time.
 */
module DunningTiming {
  import opened GoInt
  import opened Wrappers
  import opened Entitlements
  import opened Subscriptions
  import opened Lifecycle
  import opened RetryCounters
  import opened LifecycleOutcomes
  import opened Dunning

  /** `failures` lists the times of a subscription's recorded failures, oldest first. */
  datatype Sys = Sys(db: DB, queue: seq<SubId>, failures: map<SubId, seq<Time>>)

  datatype Step =
    | FirstFailure(sid: SubId, at: Time)
    | Sweep(refused: set<SubId>, at: Time)
    | Attempt(job: nat, rebill: Rebill, at: Time)
    | Other(event: Event)

  function FailuresOf(s: Sys, sid: SubId): seq<Time> {
    if sid in s.failures then s.failures[sid] else []
  }

  /** A failure that is stored lands in the subscription and in the history at the same time. */
  function Failed(cat: Catalog, s: Sys, sid: SubId, at: Time): Sys
    requires sid < |s.db.subs|
  {
    var db := Apply(cat, s.db, Event(On(sid, Fail), at));
    if FailLands(s.db, sid, db.clock) then s.(db := db, failures := s.failures[sid := FailuresOf(s, sid) + [db.clock]])
    else s.(db := db)
  }

  function Swept(s: Sys, refused: set<SubId>, at: Time): Sys {
    var now := if at < s.db.clock then s.db.clock else at;
    s.(db := s.db.(clock := now), queue := s.queue + Accepted(DueIds(s.db.subs, now), refused))
  }

  function Attempted(cat: Catalog, s: Sys, job: nat, rebill: Rebill, at: Time): Sys
    requires job < |s.queue|
  {
    var sid := s.queue[job];
    var rest := s.(queue := s.queue[..job] + s.queue[job + 1..]);
    if sid >= |s.db.subs| then rest else
    match OutcomeOf(s.db.subs[sid], rebill)
    case None => rest
    case Some(change) =>
      if change == Fail then Failed(cat, rest, sid, at) else rest.(db := Apply(cat, s.db, Event(On(sid, change), at)))
  }

  function ApplyStep(cat: Catalog, s: Sys, step: Step): Sys {
    match step
    case FirstFailure(sid, at) =>
      if sid < |s.db.subs| && Attempts(s.db.subs[sid]) == 0 then Failed(cat, s, sid, at) else s
    case Sweep(refused, at) =>
      if s.queue == [] then Swept(s, refused, at) else s
    case Attempt(job, rebill, at) =>
      if job < |s.queue| then Attempted(cat, s, job, rebill, at) else s
    case Other(e) =>
      if e.op.On? && e.op.change == Fail then s else s.(db := Apply(cat, s.db, e))
  }

  /** The step has taken this job and has not changed any subscription or window. */
  ghost predicate OnlyTakesTheJob(s: Sys, t: Sys) {
    t.db.subs == s.db.subs && t.db.windows == s.db.windows && t.failures == s.failures
  }

  /** An approved charge of an NMI subscription renews it when nothing refuses the renewal, and else changes nothing. */
  lemma ApprovedAttemptRenews(cat: Catalog, s: Sys, job: nat, at: Time)
    requires job < |s.queue| && s.queue[job] < |s.db.subs| && s.db.subs[s.queue[job]].processor == NMI
    ensures var sid, t := s.queue[job], ApplyStep(cat, s, Attempt(job, Approved, at));
            && t.queue == s.queue[..job] + s.queue[job + 1..] && t.failures == s.failures
            && if CanRenew(cat, s.db, sid) then IsRenewed(cat, s.db, t.db, sid, if at < s.db.clock then s.db.clock else at)
               else OnlyTakesTheJob(s, t)
  {
    var sid := s.queue[job];
    var now := if at < s.db.clock then s.db.clock else at;
    RenewalMeansRenewed(cat, s.db, sid, now);
    if CanRenew(cat, s.db, sid) {
      RenewedAtAnyClock(cat, s.db, Try(cat, s.db, On(sid, Renew), now).value, sid, now);
    }
  }

  lemma RenewedAtAnyClock(cat: Catalog, before: DB, after: DB, sid: SubId, now: Time)
    requires sid < |before.subs| && CanRenew(cat, before, sid) && IsRenewed(cat, before, after, sid, now)
    ensures IsRenewed(cat, before, after.(clock := now), sid, now)
  {
  }

  /** Without a usable payment method, on a failed request and on a declined charge, one failure is counted when it lands. */
  lemma FailingAttemptCounts(cat: Catalog, s: Sys, job: nat, rebill: Rebill, at: Time)
    requires job < |s.queue| && s.queue[job] < |s.db.subs| && s.db.subs[s.queue[job]].processor == NMI
    requires rebill in {NoPaymentMethod, RequestFailed, Declined}
    ensures var sid, t := s.queue[job], ApplyStep(cat, s, Attempt(job, rebill, at));
            var now := if at < s.db.clock then s.db.clock else at;
            && t.queue == s.queue[..job] + s.queue[job + 1..]
            && if FailLands(s.db, sid, now) then
                 CountsOneFailure(s.db, t.db, sid, now) && t.failures == s.failures[sid := FailuresOf(s, sid) + [now]]
               else OnlyTakesTheJob(s, t)
  {
    var sid := s.queue[job];
    var now := if at < s.db.clock then s.db.clock else at;
    FailureMeansCounted(cat, s.db, sid, now);
    if FailLands(s.db, sid, now) {
      CountedAtAnyClock(s.db, Try(cat, s.db, On(sid, Fail), now).value, sid, now);
    }
  }

  lemma CountedAtAnyClock(before: DB, after: DB, sid: SubId, now: Time)
    requires sid < |before.subs| && CountsOneFailure(before, after, sid, now)
    ensures CountsOneFailure(before, after.(clock := now), sid, now)
  {
  }

  /** Without a client, and for another processor, the job is dropped and nothing else happens. */
  lemma IdleAttemptDropsTheJob(cat: Catalog, s: Sys, job: nat, rebill: Rebill, at: Time)
    requires job < |s.queue| && s.queue[job] < |s.db.subs| && (rebill == NoClient || s.db.subs[s.queue[job]].processor != NMI)
    ensures ApplyStep(cat, s, Attempt(job, rebill, at)) == s.(queue := s.queue[..job] + s.queue[job + 1..])
  {
  }

  function ExecSteps(cat: Catalog, s: Sys, steps: seq<Step>): Sys {
    if steps == [] then s else ApplyStep(cat, ExecSteps(cat, s, steps[..|steps| - 1]), steps[|steps| - 1])
  }

  const IDLE := Sys(START, [], map[])

  /** n dunning intervals. */
  function Intervals(n: int): Time {
    n * 259_200_000_000_000
  }

  ghost predicate Spaced(times: seq<Time>) {
    forall i, j :: 0 <= i < j < |times| ==> times[j] >= times[i] + Intervals(j - i)
  }

  /** The history and the row tell the same story. */
  predicate RowMatches(s: Subscription, times: seq<Time>, clock: Time) {
    && Attempts(s) == |times|
    && (times != [] ==> s.lastRetryAt == Some(times[|times| - 1]) && times[|times| - 1] <= clock)
    && RetryScheduled(s)
  }

  /** A queued job's subscription failed at least one interval ago. */
  predicate Ripe(times: seq<Time>, clock: Time) {
    times != [] && times[|times| - 1] + Intervals(1) <= clock
  }

  ghost predicate Tracked(s: Sys, sid: SubId) {
    && Spaced(FailuresOf(s, sid))
    && if sid < |s.db.subs| then RowMatches(s.db.subs[sid], FailuresOf(s, sid), s.db.clock) else FailuresOf(s, sid) == []
  }

  predicate JobIsRipe(s: Sys, sid: SubId) {
    sid < |s.db.subs| && Ripe(FailuresOf(s, sid), s.db.clock)
  }

  ghost predicate Inv(s: Sys) {
    && (forall sid: SubId :: Tracked(s, sid))
    && (forall k :: 0 <= k < |s.queue| ==> JobIsRipe(s, s.queue[k]))
    && (forall j, k :: 0 <= j < k < |s.queue| ==> s.queue[j] != s.queue[k])
  }

  lemma SpacedGrows(times: seq<Time>, at: Time)
    requires Spaced(times) && (times != [] ==> times[|times| - 1] + Intervals(1) <= at)
    ensures Spaced(times + [at])
  {
    var grown := times + [at];
    forall i, j | 0 <= i < j < |grown| ensures grown[j] >= grown[i] + Intervals(j - i) {
      if j == |times| && i < |times| - 1 {
        assert times[|times| - 1] >= times[i] + Intervals(|times| - 1 - i);
      }
    }
  }

  /** A failure keeps the invariant when the subscription has not failed yet, or its last failure is ripe and it has no other job. */
  lemma FailureKeepsInv(cat: Catalog, s: Sys, sid: SubId, at: Time)
    requires Inv(s) && sid < |s.db.subs| && sid !in s.queue
    requires FailuresOf(s, sid) == [] || Ripe(FailuresOf(s, sid), s.db.clock)
    ensures Inv(Failed(cat, s, sid, at))
  {
    var now := Now(s.db, Event(On(sid, Fail), at));
    var t := Failed(cat, s, sid, at);
    AfterFail(cat, s.db, sid, at);
    if !FailLands(s.db, sid, now) {
      ClockAndFieldsKeepInv(s, t);
      return;
    }
    assert t.db.subs == s.db.subs[sid := FailedRow(s.db.subs[sid], now)] && t.db.clock == now;
    assert Tracked(s, sid);
    SpacedGrows(FailuresOf(s, sid), now);
    assert Tracked(t, sid);
    forall i: SubId | i != sid ensures Tracked(t, i) && FailuresOf(t, i) == FailuresOf(s, i) {
      assert Tracked(s, i);
    }
  }

  lemma OtherKeepsInv(cat: Catalog, s: Sys, e: Event)
    requires Inv(s) && !(e.op.On? && e.op.change == Fail)
    ensures Inv(s.(db := Apply(cat, s.db, e)))
  {
    var t := s.(db := Apply(cat, s.db, e));
    if Try(cat, s.db, e.op, Now(s.db, e)).Ok? {
      OthersKeepRetryFields(cat, s.db, e.op, Now(s.db, e));
    }
    ClockAndFieldsKeepInv(s, t);
  }

  /** Nothing that leaves retry fields, history and queue alone can break the invariant. */
  lemma ClockAndFieldsKeepInv(s: Sys, t: Sys)
    requires Inv(s) && t.failures == s.failures && t.queue == s.queue
    requires s.db.clock <= t.db.clock && |s.db.subs| <= |t.db.subs|
    requires forall i :: 0 <= i < |s.db.subs| ==> SameRetryFields(s.db.subs[i], t.db.subs[i])
    requires forall i :: |s.db.subs| <= i < |t.db.subs| ==> FreshRetryFields(t.db.subs[i])
    ensures Inv(t)
  {
    forall i: SubId ensures Tracked(t, i) {
      assert Tracked(s, i);
      assert FailuresOf(t, i) == FailuresOf(s, i);
    }
    forall k | 0 <= k < |t.queue| ensures JobIsRipe(t, t.queue[k]) {
      assert JobIsRipe(s, s.queue[k]);
    }
  }

  lemma {:induction false} AcceptedIsDistinct(ids: seq<SubId>, refused: set<SubId>)
    requires Ascending(ids)
    ensures Ascending(Accepted(ids, refused))
  {
    if ids != [] {
      var front := ids[..|ids| - 1];
      var jobs := Accepted(front, refused);
      AcceptedIsDistinct(front, refused);
      forall k | 0 <= k < |jobs| ensures jobs[k] < ids[|ids| - 1] {
        assert jobs[k] in jobs;
        var i :| 0 <= i < |front| && front[i] == jobs[k];
      }
    }
  }

  lemma SweepKeepsInv(s: Sys, refused: set<SubId>, at: Time)
    requires Inv(s) && s.queue == []
    ensures Inv(Swept(s, refused, at))
  {
    var t := Swept(s, refused, at);
    AcceptedIsDistinct(DueIds(s.db.subs, t.db.clock), refused);
    ClockAndFieldsKeepInv(s, t.(queue := []));
    assert forall i :: FailuresOf(t, i) == FailuresOf(s, i);
    forall i: SubId ensures Tracked(t, i) {
      assert Tracked(t.(queue := []), i);
    }
    forall k | 0 <= k < |t.queue| ensures JobIsRipe(t, t.queue[k]) {
      assert t.queue[k] in t.queue;
      assert IsDue(s.db.subs[t.queue[k]], t.db.clock);
      assert Tracked(s, t.queue[k]);
    }
  }

  lemma DequeueKeepsInv(s: Sys, job: nat)
    requires Inv(s) && job < |s.queue|
    ensures Inv(s.(queue := s.queue[..job] + s.queue[job + 1..])) && s.queue[job] !in s.queue[..job] + s.queue[job + 1..]
  {
    var t := s.(queue := s.queue[..job] + s.queue[job + 1..]);
    forall i: SubId ensures Tracked(t, i) {
      assert Tracked(s, i);
    }
    forall k | 0 <= k < |t.queue| ensures JobIsRipe(t, t.queue[k]) {
      assert JobIsRipe(s, s.queue[if k < job then k else k + 1]);
    }
  }

  lemma StepKeepsInv(cat: Catalog, s: Sys, step: Step)
    requires Inv(s)
    ensures Inv(ApplyStep(cat, s, step))
  {
    match step
    case FirstFailure(sid, at) =>
      if sid < |s.db.subs| && Attempts(s.db.subs[sid]) == 0 {
        assert Tracked(s, sid);
        FailureKeepsInv(cat, s, sid, at);
      }
    case Sweep(refused, at) =>
      if s.queue == [] {
        SweepKeepsInv(s, refused, at);
      }
    case Attempt(job, rebill, at) =>
      if job < |s.queue| {
        var sid := s.queue[job];
        DequeueKeepsInv(s, job);
        var rest := s.(queue := s.queue[..job] + s.queue[job + 1..]);
        assert JobIsRipe(s, sid);
        var outcome := OutcomeOf(s.db.subs[sid], rebill);
        if outcome.Some? {
          if outcome.value == Fail {
            FailureKeepsInv(cat, rest, sid, at);
          } else {
            OtherKeepsInv(cat, rest, Event(On(sid, outcome.value), at));
          }
        }
      }
    case Other(e) =>
      if !(e.op.On? && e.op.change == Fail) {
        OtherKeepsInv(cat, s, e);
      }
  }

  lemma {:induction false} RunKeepsInv(cat: Catalog, s: Sys, steps: seq<Step>)
    requires Inv(s)
    ensures Inv(ExecSteps(cat, s, steps))
  {
    if steps != [] {
      RunKeepsInv(cat, s, steps[..|steps| - 1]);
      StepKeepsInv(cat, ExecSteps(cat, s, steps[..|steps| - 1]), steps[|steps| - 1]);
    }
  }

  /** In every run of the loop, a subscription's i-th and j-th failures are at least j-i intervals of 72 hours apart. */
  lemma FailuresAreSpaced(cat: Catalog, steps: seq<Step>, sid: SubId, i: nat, j: nat)
    requires i < j < |FailuresOf(ExecSteps(cat, IDLE, steps), sid)|
    ensures var times := FailuresOf(ExecSteps(cat, IDLE, steps), sid);
            times[j] - times[i] >= Intervals(j - i)
  {
    RunKeepsInv(cat, IDLE, steps);
    assert Tracked(ExecSteps(cat, IDLE, steps), sid);
  }

  /** In every run of the loop, the step that makes dunning cancel a subscription comes at least 12 days after its first failure. */
  lemma {:induction false} NoCancellationBeforeTwelveDays(cat: Catalog, steps: seq<Step>, last: Step, sid: SubId)
    requires var s := ExecSteps(cat, IDLE, steps);
             && sid < |s.db.subs| && s.db.subs[sid].status != Cancelled
             && !last.Other? && sid < |ApplyStep(cat, s, last).db.subs| && ApplyStep(cat, s, last).db.subs[sid].status == Cancelled
    ensures var t := ApplyStep(cat, ExecSteps(cat, IDLE, steps), last);
            && |FailuresOf(t, sid)| >= MAX_DUNNING_FAILURES
            && t.db.clock - FailuresOf(t, sid)[0] >= Days(12)
  {
    RunKeepsInv(cat, IDLE, steps);
    CancellationTakesTwelveDays(cat, ExecSteps(cat, IDLE, steps), last, sid);
  }

  lemma CancellationTakesTwelveDays(cat: Catalog, s: Sys, last: Step, sid: SubId)
    requires Inv(s) && sid < |s.db.subs| && s.db.subs[sid].status != Cancelled && !last.Other?
    requires sid < |ApplyStep(cat, s, last).db.subs| && ApplyStep(cat, s, last).db.subs[sid].status == Cancelled
    ensures TwelveDaysOn(ApplyStep(cat, s, last), sid)
  {
    StepKeepsInv(cat, s, last);
    OnlyAFailureCancels(cat, s, last, sid);
    FiveFailuresTakeTwelveDays(ApplyStep(cat, s, last), sid);
  }

  /** The fifth failure, or a later one, has just been recorded. */
  predicate FifthJustNow(s: Sys, sid: SubId) {
    |FailuresOf(s, sid)| >= MAX_DUNNING_FAILURES && FailuresOf(s, sid)[|FailuresOf(s, sid)| - 1] == s.db.clock
  }

  predicate TwelveDaysOn(s: Sys, sid: SubId) {
    |FailuresOf(s, sid)| >= MAX_DUNNING_FAILURES && s.db.clock - FailuresOf(s, sid)[0] >= Days(12)
  }

  lemma FiveFailuresTakeTwelveDays(s: Sys, sid: SubId)
    requires Inv(s) && FifthJustNow(s, sid)
    ensures TwelveDaysOn(s, sid)
  {
    var times := FailuresOf(s, sid);
    assert Tracked(s, sid);
    assert times[|times| - 1] >= times[0] + Intervals(|times| - 1);
  }

  /** The subscription has failed, is past due, and nobody is being charged. */
  predicate Waiting(s: Sys, sid: SubId, failed: nat) {
    && s.queue == [] && sid < |s.db.subs| && s.db.subs[sid].processor == NMI && s.db.subs[sid].status == PastDue
    && |FailuresOf(s, sid)| == Attempts(s.db.subs[sid]) == failed && 1 <= failed < MAX_DUNNING_FAILURES
    && s.db.clock <= DueTime(s, sid) && s.db.subs[sid].nextRetryAt == Some(DueTime(s, sid))
    && Elapsed(s, sid) == Intervals(failed - 1)
  }

  /** From the first failure to the last. */
  function Elapsed(s: Sys, sid: SubId): Time {
    var times := FailuresOf(s, sid);
    if times == [] then 0 else times[|times| - 1] - times[0]
  }

  function DueTime(s: Sys, sid: SubId): Time {
    var times := FailuresOf(s, sid);
    if times == [] then 0 else times[|times| - 1] + DUNNING_INTERVAL
  }

  function Others(n: nat, sid: SubId): (others: set<SubId>)
    ensures forall id: SubId :: id in others <==> id < n && id != sid
  {
    if n == 0 then {} else Others(n - 1, sid) + if n - 1 == sid then {} else {n - 1}
  }

  /** A sweep at the due time that gets only this subscription's job in. */
  function SweptAlone(cat: Catalog, s: Sys, sid: SubId): Sys {
    ApplyStep(cat, s, Sweep(Others(|s.db.subs|, sid), DueTime(s, sid)))
  }

  /** One punctual round: such a sweep, and an attempt that is declined. */
  function Round(cat: Catalog, s: Sys, sid: SubId): Sys {
    ApplyStep(cat, SweptAlone(cat, s, sid), Attempt(0, Declined, DueTime(s, sid)))
  }

  lemma OnlyJob(cat: Catalog, s: Sys, sid: SubId, failed: nat)
    requires Waiting(s, sid, failed)
    ensures SweptAlone(cat, s, sid) == Sys(s.db.(clock := DueTime(s, sid)), [sid], s.failures)
  {
    SweepsAlone(cat, s, sid, DueTime(s, sid));
  }

  lemma SweepsAlone(cat: Catalog, s: Sys, sid: SubId, at: Time)
    requires s.queue == [] && sid < |s.db.subs| && IsDue(s.db.subs[sid], at) && s.db.clock <= at
    ensures ApplyStep(cat, s, Sweep(Others(|s.db.subs|, sid), at)) == Sys(s.db.(clock := at), [sid], s.failures)
  {
    AloneIsAccepted(s.db.subs, at, sid);
  }

  lemma AloneIsAccepted(subs: seq<Subscription>, now: Time, sid: SubId)
    requires sid < |subs| && IsDue(subs[sid], now)
    ensures Accepted(DueIds(subs, now), Others(|subs|, sid)) == [sid]
  {
    var jobs := Accepted(DueIds(subs, now), Others(|subs|, sid));
    AcceptedIsDistinct(DueIds(subs, now), Others(|subs|, sid));
    assert sid in jobs;
    TwoJobsDiffer(jobs, sid);
  }

  lemma TwoJobsDiffer(jobs: seq<SubId>, sid: SubId)
    requires forall j, k :: 0 <= j < k < |jobs| ==> jobs[j] != jobs[k]
    ensures |jobs| > 1 ==> exists id :: id in jobs && id != sid
    ensures |jobs| == 1 && sid in jobs ==> jobs == [sid]
  {
    if |jobs| > 1 {
      assert jobs[0] in jobs && jobs[1] in jobs;
    }
  }

  lemma DeclinedJob(cat: Catalog, s: Sys, sid: SubId)
    requires s.queue == [sid] && sid < |s.db.subs| && s.db.subs[sid].processor == NMI
    ensures var t := ApplyStep(cat, s, Attempt(0, Declined, s.db.clock));
            && t.queue == [] && t.db.clock == s.db.clock
            && (!FailsOut(s.db.subs[sid]) ==> t.db.windows == s.db.windows)
            && if FailLands(s.db, sid, s.db.clock) then
                 t.db.subs == s.db.subs[sid := FailedRow(s.db.subs[sid], s.db.clock)] && FailuresOf(t, sid) == FailuresOf(s, sid) + [s.db.clock]
               else t.db == s.db && FailuresOf(t, sid) == FailuresOf(s, sid)
  {
    AfterFail(cat, s.db, sid, s.db.clock);
    FailLandsExactlyWhen(cat, s.db, sid, s.db.clock);
  }

  lemma RoundFailsOnTime(cat: Catalog, s: Sys, sid: SubId, failed: nat)
    requires Waiting(s, sid, failed) && failed + 1 < MAX_DUNNING_FAILURES
    ensures var t := Round(cat, s, sid);
            && Waiting(t, sid, failed + 1) && t.db.windows == s.db.windows
            && FailuresOf(t, sid)[0] == FailuresOf(s, sid)[0]
  {
    OnlyJob(cat, s, sid, failed);
    DeclinedJob(cat, SweptAlone(cat, s, sid), sid);
    WaitsAgain(s, Round(cat, s, sid), sid, failed);
  }

  lemma WaitsAgain(s: Sys, t: Sys, sid: SubId, failed: nat)
    requires Waiting(s, sid, failed) && failed + 1 < MAX_DUNNING_FAILURES
    requires t.queue == [] && t.db.clock == DueTime(s, sid) && t.db.subs == s.db.subs[sid := FailedRow(s.db.subs[sid], DueTime(s, sid))]
    requires FailuresOf(t, sid) == FailuresOf(s, sid) + [DueTime(s, sid)]
    ensures Waiting(t, sid, failed + 1) && FailuresOf(t, sid)[0] == FailuresOf(s, sid)[0]
  {
  }

  /** The round of the fifth failure: it cancels exactly when all open windows have started, and else is lost. */
  lemma LastRound(cat: Catalog, s: Sys, sid: SubId)
    requires Waiting(s, sid, 4)
    ensures var t := Round(cat, s, sid);
            if AllStarted(s.db.windows, FromSubscription(sid), DueTime(s, sid)) then
              && sid < |t.db.subs| && t.db.subs[sid].status == Cancelled
              && |FailuresOf(t, sid)| == 5 && Elapsed(t, sid) == Intervals(4) && FailuresOf(t, sid)[4] == DueTime(s, sid)
            else t.queue == [] && t.db == s.db.(clock := DueTime(s, sid)) && FailuresOf(t, sid) == FailuresOf(s, sid)
  {
    OnlyJob(cat, s, sid, 4);
    DeclinedJob(cat, SweptAlone(cat, s, sid), sid);
  }

  /** Four punctual rounds from here. */
  function FourRounds(cat: Catalog, s: Sys, sid: SubId): Sys {
    Round(cat, Round(cat, Round(cat, Round(cat, s, sid), sid), sid), sid)
  }

  /**
   Twelve days are enough, exactly when the windows allow it: when every round is punctual and
   declined, the fifth failure comes 12 days after the first and cancels if and only if every open
   window of the subscription has started by then. If not it is lost, and the subscription stays past due.
   */
  lemma TwelveDaysAreReached(cat: Catalog, s: Sys, sid: SubId)
    requires Waiting(s, sid, 1)
    ensures var t := FourRounds(cat, s, sid);
            && sid < |t.db.subs|
            && (t.db.subs[sid].status == Cancelled <==> AllStarted(s.db.windows, FromSubscription(sid), FailuresOf(s, sid)[0] + Days(12)))
            && (t.db.subs[sid].status == Cancelled ==> |FailuresOf(t, sid)| == 5 && Elapsed(t, sid) == Days(12))
            && (t.db.subs[sid].status != Cancelled ==> t.db.subs[sid].status == PastDue && Attempts(t.db.subs[sid]) == 4)
  {
    var first := Round(cat, s, sid);
    var second := Round(cat, first, sid);
    var third := Round(cat, second, sid);
    RoundFailsOnTime(cat, s, sid, 1);
    RoundFailsOnTime(cat, first, sid, 2);
    RoundFailsOnTime(cat, second, sid, 3);
    FourthDueTime(third, sid);
    LastRound(cat, third, sid);
  }

  lemma FourthDueTime(s: Sys, sid: SubId)
    requires Waiting(s, sid, 4)
    ensures DueTime(s, sid) == FailuresOf(s, sid)[0] + Days(12)
  {
  }

  /**
   What a lost fifth failure costs: the subscription is as due as before, so every sweep from then on
   until its windows have started enqueues it again, and each of these attempts asks for a charge.
   */
  lemma LostFailureIsDueAgain(cat: Catalog, s: Sys, sid: SubId, at: Time, later: Time)
    requires s.queue == [sid] && sid < |s.db.subs| && IsDue(s.db.subs[sid], at) && FailsOut(s.db.subs[sid])
    requires s.db.clock <= at <= later && !AllStarted(s.db.windows, FromSubscription(sid), at)
    ensures var t := ApplyStep(cat, s, Attempt(0, Declined, at));
            && t.queue == [] && FailuresOf(t, sid) == FailuresOf(s, sid)
            && sid < |t.db.subs| && IsDue(t.db.subs[sid], later)
            && sid in ApplyStep(cat, t, Sweep({}, later)).queue
  {
    AfterFail(cat, s.db, sid, at);
  }

  /** Outside other operations a subscription is cancelled only by its own failure, once enough are recorded. */
  lemma OnlyAFailureCancels(cat: Catalog, s: Sys, step: Step, sid: SubId)
    requires Inv(s) && !step.Other? && sid < |s.db.subs| && s.db.subs[sid].status != Cancelled
    requires sid < |ApplyStep(cat, s, step).db.subs| && ApplyStep(cat, s, step).db.subs[sid].status == Cancelled
    ensures FifthJustNow(ApplyStep(cat, s, step), sid)
  {
    assert Tracked(s, sid);
    match step
    case FirstFailure(failed, at) =>
      if failed < |s.db.subs| {
        AfterFail(cat, s.db, failed, at);
      }
    case Sweep(_, _) =>
    case Attempt(job, rebill, at) =>
      var charged := s.queue[job];
      var outcome := OutcomeOf(s.db.subs[charged], rebill);
      if outcome == Some(Fail) {
        AfterFail(cat, s.db, charged, at);
      }
  }

  lemma {:induction false} EachOnce(jobs: seq<SubId>, sid: SubId)
    requires Ascending(jobs)
    ensures multiset(jobs)[sid] == if sid in jobs then 1 else 0
  {
    if jobs != [] {
      var front := jobs[..|jobs| - 1];
      EachOnce(front, sid);
      assert jobs == front + [jobs[|jobs| - 1]];
      assert forall k :: 0 <= k < |front| ==> front[k] == jobs[k];
    }
  }

  /**
   A sweep adds exactly one job for each due subscription, unless its insert is refused, and no other,
   whatever is in the queue: a subscription is queued twice exactly when it was queued already.
   */
  lemma SweepEnqueuesEachDueOnce(s: Sys, refused: set<SubId>, at: Time, sid: SubId)
    ensures var t := Swept(s, refused, at);
            multiset(t.queue)[sid] == multiset(s.queue)[sid]
              + if sid < |s.db.subs| && IsDue(s.db.subs[sid], t.db.clock) && sid !in refused then 1 else 0
  {
    var due := DueIds(s.db.subs, Swept(s, refused, at).db.clock);
    AcceptedIsDistinct(due, refused);
    EachOnce(Accepted(due, refused), sid);
  }

  /** A second sweep before the first attempt has run enqueues every due subscription again. */
  lemma SecondSweepDuplicates(s: Sys, sid: SubId, at: Time)
    requires s.queue == [] && sid < |s.db.subs| && at >= s.db.clock && IsDue(s.db.subs[sid], at)
    ensures var twice := Swept(Swept(s, {}, at), {}, at);
            exists j, k :: 0 <= j < k < |twice.queue| && twice.queue[j] == twice.queue[k] == sid
  {
    var jobs := Accepted(DueIds(s.db.subs, at), {});
    assert sid in jobs;
    assert Swept(Swept(s, {}, at), {}, at).queue == jobs + jobs;
    TwiceInBoth(jobs, sid);
  }

  lemma TwiceInBoth(jobs: seq<SubId>, sid: SubId)
    requires sid in jobs
    ensures exists j, k :: 0 <= j < k < |jobs + jobs| && (jobs + jobs)[j] == (jobs + jobs)[k] == sid
  {
    var j :| 0 <= j < |jobs| && jobs[j] == sid;
    assert (jobs + jobs)[j] == sid && (jobs + jobs)[|jobs| + j] == sid;
  }

  /** The time from which another failure keeps the spacing: 72 hours after the last. */
  predicate OnTime(s: Subscription, now: Time) {
    s.lastRetryAt.Some? ==> s.lastRetryAt.value + DUNNING_INTERVAL <= now
  }

  /** The history is that of the row, spaced or not. */
  predicate Recorded(s: Sys, sid: SubId) {
    var times := FailuresOf(s, sid);
    if sid < |s.db.subs| then if times == [] then s.db.subs[sid].lastRetryAt.None? else s.db.subs[sid].lastRetryAt == Some(times[|times| - 1])
    else times == []
  }

  lemma SpacedGrowsIff(times: seq<Time>, at: Time)
    ensures Spaced(times + [at]) <==> Spaced(times) && (times != [] ==> times[|times| - 1] + Intervals(1) <= at)
  {
    var grown := times + [at];
    if Spaced(grown) {
      assert forall i :: 0 <= i < |times| ==> times[i] == grown[i];
      if times != [] {
        assert grown[|times|] >= grown[|times| - 1] + Intervals(1);
      }
    }
    if Spaced(times) && (times != [] ==> times[|times| - 1] + Intervals(1) <= at) {
      SpacedGrows(times, at);
    }
  }

  /** One more failure keeps the spacing exactly when it comes no sooner than 72 hours after the last, or is not stored. */
  lemma FailureIsSpacedIff(cat: Catalog, s: Sys, sid: SubId, at: Time)
    requires Recorded(s, sid) && sid < |s.db.subs|
    ensures var now := Now(s.db, Event(On(sid, Fail), at));
            && (Spaced(FailuresOf(Failed(cat, s, sid, at), sid)) <==> Spaced(FailuresOf(s, sid)) && (FailLands(s.db, sid, now) ==> OnTime(s.db.subs[sid], now)))
            && Recorded(Failed(cat, s, sid, at), sid)
  {
    AfterFail(cat, s.db, sid, at);
    SpacedGrowsIff(FailuresOf(s, sid), Now(s.db, Event(On(sid, Fail), at)));
  }

  /**
   The guard the worker lacks. An attempt on a past-due subscription, whoever enqueued it and however
   often, keeps the 72 hours exactly when it does not fail, its failure is not stored, or the stored
   retry time has come.
   */
  lemma AttemptIsSpacedIff(cat: Catalog, s: Sys, job: nat, rebill: Rebill, at: Time)
    requires job < |s.queue| && s.queue[job] < |s.db.subs| && s.db.subs[s.queue[job]].status == PastDue && Tracked(s, s.queue[job])
    ensures var sid := s.queue[job];
            Spaced(FailuresOf(Attempted(cat, s, job, rebill, at), sid))
            <==> s.db.subs[sid].processor != NMI || rebill in {NoClient, Approved}
                 || !FailLands(s.db, sid, Now(s.db, Event(On(sid, Fail), at)))
                 || s.db.subs[sid].nextRetryAt.value <= Now(s.db, Event(On(sid, Fail), at))
  {
    var sid := s.queue[job];
    var rest := s.(queue := s.queue[..job] + s.queue[job + 1..]);
    if OutcomeOf(s.db.subs[sid], rebill) == Some(Fail) {
      FailureIsSpacedIff(cat, rest, sid, at);
    }
  }

  // ---- any run at all

  /** One lifecycle event with its failures written down: any job, webhook or operator may be behind it. */
  function Noted(cat: Catalog, s: Sys, e: Event): Sys {
    if !(e.op.On? && e.op.change == Fail) then s.(db := Apply(cat, s.db, e))
    else if e.op.sid < |s.db.subs| then Failed(cat, s, e.op.sid, e.at)
    else s.(db := Apply(cat, s.db, e))
  }

  function NotedRun(cat: Catalog, events: seq<Event>): Sys {
    if events == [] then IDLE else Noted(cat, NotedRun(cat, events[..|events| - 1]), events[|events| - 1])
  }

  /** Event i is no failure of the subscription, or is not stored, or comes when its row allows it. */
  predicate Punctual(cat: Catalog, events: seq<Event>, sid: SubId, i: nat)
    requires i < |events|
  {
    var s := NotedRun(cat, events[..i]);
    events[i].op == On(sid, Fail) && sid < |s.db.subs| && FailLands(s.db, sid, Now(s.db, events[i])) ==> OnTime(s.db.subs[sid], Now(s.db, events[i]))
  }

  predicate AllPunctual(cat: Catalog, events: seq<Event>, sid: SubId) {
    forall i :: 0 <= i < |events| ==> Punctual(cat, events, sid, i)
  }

  lemma NotedKeepsRecord(cat: Catalog, s: Sys, e: Event, sid: SubId)
    requires Recorded(s, sid)
    ensures Recorded(Noted(cat, s, e), sid)
    ensures e.op != On(sid, Fail) || sid >= |s.db.subs| ==> FailuresOf(Noted(cat, s, e), sid) == FailuresOf(s, sid)
  {
    if e.op.On? && e.op.change == Fail {
      if e.op.sid < |s.db.subs| {
        FailedKeepsRecord(cat, s, e.op.sid, e.at, sid);
      }
    } else if Try(cat, s.db, e.op, Now(s.db, e)).Ok? {
      OthersKeepRetryFields(cat, s.db, e.op, Now(s.db, e));
    }
  }

  lemma FailedKeepsRecord(cat: Catalog, s: Sys, failed: SubId, at: Time, sid: SubId)
    requires Recorded(s, sid) && failed < |s.db.subs|
    ensures Recorded(Failed(cat, s, failed, at), sid)
    ensures failed != sid ==> FailuresOf(Failed(cat, s, failed, at), sid) == FailuresOf(s, sid)
  {
    AfterFail(cat, s.db, failed, at);
  }

  /** Writing failures down changes nothing: the stores are those of the lifecycle run. */
  lemma {:induction false} NotedRunIsTheRun(cat: Catalog, events: seq<Event>, sid: SubId)
    ensures NotedRun(cat, events).db == Exec(cat, START, events) && Recorded(NotedRun(cat, events), sid)
  {
    if events != [] {
      NotedRunIsTheRun(cat, events[..|events| - 1], sid);
      NotedKeepsRecord(cat, NotedRun(cat, events[..|events| - 1]), events[|events| - 1], sid);
    }
  }

  /**
   The exact condition, over every run of lifecycle operations, whatever is behind them: the failures
   of a subscription are 72 hours apart if and only if each that is stored finds 72 hours gone since
   the last failure in the row. Nothing in the operation checks it.
   */
  lemma {:induction false} SpacedExactlyWhenPunctual(cat: Catalog, events: seq<Event>, sid: SubId)
    ensures Spaced(FailuresOf(NotedRun(cat, events), sid)) <==> AllPunctual(cat, events, sid)
  {
    if events != [] {
      var front, e := events[..|events| - 1], events[|events| - 1];
      var s := NotedRun(cat, front);
      SpacedExactlyWhenPunctual(cat, front, sid);
      NotedRunIsTheRun(cat, front, sid);
      NotedKeepsRecord(cat, s, e, sid);
      if e.op == On(sid, Fail) && sid < |s.db.subs| {
        FailureIsSpacedIff(cat, s, sid, e.at);
      }
      PunctualGrows(cat, events, sid);
    }
  }

  lemma PunctualGrows(cat: Catalog, events: seq<Event>, sid: SubId)
    requires events != []
    ensures AllPunctual(cat, events, sid)
       <==> AllPunctual(cat, events[..|events| - 1], sid) && Punctual(cat, events, sid, |events| - 1)
  {
    var front := events[..|events| - 1];
    forall i | 0 <= i < |front| ensures Punctual(cat, front, sid, i) == Punctual(cat, events, sid, i) {
      assert front[..i] == events[..i];
    }
  }

  /**
   Why sweeps must wait. Two jobs of one subscription, both declined at once, are recorded as two
   failures at the same instant: the worker does not look at the retry time again. So it is exactly
   as long as both are stored.
   */
  lemma {:induction false} DuplicateJobsBreakTheSpacing(cat: Catalog, s: Sys, sid: SubId, at: Time)
    requires |s.queue| >= 2 && s.queue[0] == s.queue[1] == sid && at >= s.db.clock
    requires sid < |s.db.subs| && s.db.subs[sid].processor == NMI
    ensures var after := Attempted(cat, Attempted(cat, s, 0, Declined, at), 0, Declined, at);
            FailuresOf(after, sid) == FailuresOf(s, sid) + [at, at]
            <==> Attempts(s.db.subs[sid]) + 2 < MAX_DUNNING_FAILURES || AllStarted(s.db.windows, FromSubscription(sid), at)
  {
    var once := Attempted(cat, s, 0, Declined, at);
    var twice := Attempted(cat, once, 0, Declined, at);
    AfterFail(cat, s.db, sid, at);
    assert once.db.clock == at && once.queue[0] == sid;
    AfterFail(cat, once.db, sid, at);
    if FailLands(s.db, sid, at) {
      assert FailuresOf(once, sid) == FailuresOf(s, sid) + [at];
      if FailsOut(s.db.subs[sid]) {
        FailLandsExactlyWhen(cat, s.db, sid, at);
        EndedStaysStarted(s.db.windows, FromSubscription(sid), at);
      }
    }
    assert |FailuresOf(twice, sid)| <= |FailuresOf(once, sid)| + 1 <= |FailuresOf(s, sid)| + 2;
  }

  lemma EndedStaysStarted(windows: Table, source: Source, at: Time)
    requires AllStarted(windows, source, at)
    ensures AllStarted(AllEnded(windows, source, at, at), source, at)
    ensures EndActive(windows, source, at, at) == Ok(AllEnded(windows, source, at, at))
  {
    EndActiveLandsExactlyWhen(windows, source, at, at);
  }
}

/**
 Any number of workers racing on the webhook table. A worker claims an event, hands it to the
 dispatcher, and marks the result; it may crash between any two of those steps, and a crash
 forgets the claim without touching the table. Every sequence of steps is a run: a step that is
 not enabled changes nothing.
 */
module WebhookProtocol {
  import opened GoInt
  import opened Wrappers
  import opened WebhookRetry
  import opened WebhookEvents

  type WorkerId = nat

  datatype Worker =
    | Idle
    | Claimed(id: EventId, snapshot: nat)
    | Ran(id: EventId, snapshot: nat, error: Option<string>)

  datatype Dispatch = Dispatch(id: EventId, ok: bool)

  /** `log` records every dispatch made so far, oldest first. */
  datatype Sys = Sys(rows: Table, workers: map<WorkerId, Worker>, log: seq<Dispatch>, clock: Time)

  datatype Step =
    | Receive(id: EventId)
    | Begin(w: WorkerId, id: EventId)
    | Run(w: WorkerId, error: Option<string>)
    | Mark(w: WorkerId)
    | Crash(w: WorkerId)
    | Advance(elapsed: nat)

  const START := Sys(map[], map[], [], 0)

  function WorkerOf(s: Sys, w: WorkerId): Worker {
    if w in s.workers then s.workers[w] else Idle
  }

  function MarkedRow(cfg: RetryConfig, e: Event, k: Worker, now: Time): Event
    requires k.Ran?
  {
    match k.error
    case None => ProcessedRow(e, now)
    case Some(message) => FailedRow(cfg, e, k.snapshot, message, now)
  }

  function Apply(cfg: RetryConfig, s: Sys, step: Step): Sys {
    match step
    case Receive(id) =>
      if id in s.rows then s else s.(rows := s.rows[id := ReceivedRow(s.clock)])
    case Begin(w, id) =>
      if WorkerOf(s, w).Idle? && Claimable(s.rows, id) then
        var e := ClaimedRow(s.rows[id], s.clock);
        s.(rows := s.rows[id := e], workers := s.workers[w := Claimed(id, e.attempts)])
      else s
    case Run(w, error) =>
      var k := WorkerOf(s, w);
      if k.Claimed? then
        s.(workers := s.workers[w := Ran(k.id, k.snapshot, error)], log := s.log + [Dispatch(k.id, error.None?)])
      else s
    case Mark(w) =>
      var k := WorkerOf(s, w);
      if k.Ran? && k.id in s.rows then
        s.(rows := s.rows[k.id := MarkedRow(cfg, s.rows[k.id], k, s.clock)], workers := s.workers[w := Idle])
      else s
    case Crash(w) => s.(workers := s.workers[w := Idle])
    case Advance(elapsed) => s.(clock := s.clock + elapsed)
  }

  function Exec(cfg: RetryConfig, s: Sys, steps: seq<Step>): Sys {
    if steps == [] then s else Apply(cfg, Exec(cfg, s, steps[..|steps| - 1]), steps[|steps| - 1])
  }

  predicate Busy(s: Sys, w: WorkerId) {
    !WorkerOf(s, w).Idle?
  }

  /** Worker w is between its claim of the event and its mark. */
  predicate Holds(s: Sys, w: WorkerId, id: EventId) {
    Busy(s, w) && WorkerOf(s, w).id == id
  }

  /** How often an event has been dispatched. */
  function Runs(log: seq<Dispatch>, id: EventId): nat {
    if log == [] then 0 else Runs(log[..|log| - 1], id) + if log[|log| - 1].id == id then 1 else 0
  }

  predicate Succeeded(log: seq<Dispatch>, id: EventId) {
    Dispatch(id, true) in log
  }

  predicate AttemptsMatchStatus(cfg: RetryConfig, e: Event) {
    match e.status
    case Pending => e.attempts == 0
    case Processing => 1 <= e.attempts <= cfg.maxAttempts
    case Processed => 1 <= e.attempts <= cfg.maxAttempts
    case Failed => 1 <= e.attempts < cfg.maxAttempts
    case Error => e.attempts == cfg.maxAttempts
  }

  ghost predicate ClaimsAreCurrent(s: Sys) {
    && (forall w :: Busy(s, w) ==>
          var k := WorkerOf(s, w);
          && k.id in s.rows && s.rows[k.id].status == Processing && s.rows[k.id].attempts == k.snapshot)
    && (forall w1, w2 :: Busy(s, w1) && Busy(s, w2) && WorkerOf(s, w1).id == WorkerOf(s, w2).id ==> w1 == w2)
  }

  ghost predicate DispatchesAreCounted(s: Sys) {
    && (forall id :: Runs(s.log, id) <= if id in s.rows then s.rows[id].attempts else 0)
    && (forall w :: WorkerOf(s, w).Claimed? ==> Runs(s.log, WorkerOf(s, w).id) < WorkerOf(s, w).snapshot)
  }

  /** Once a dispatch has succeeded the event can only become processed or stay stuck in processing. */
  ghost predicate SuccessIsKept(s: Sys) {
    && (forall id :: Succeeded(s.log, id) ==> id in s.rows && s.rows[id].status in {Processing, Processed})
    && (forall w :: Busy(s, w) && Succeeded(s.log, WorkerOf(s, w).id) ==> WorkerOf(s, w).Ran? && WorkerOf(s, w).error.None?)
    && (forall i, j :: 0 <= i < j < |s.log| && s.log[i].id == s.log[j].id ==> !s.log[i].ok)
  }

  ghost predicate Inv(cfg: RetryConfig, s: Sys) {
    && ClaimsAreCurrent(s)
    && (forall id :: id in s.rows ==> AttemptsMatchStatus(cfg, s.rows[id]))
    && DispatchesAreCounted(s)
    && SuccessIsKept(s)
  }

  /** A step moves at most the one worker it names. */
  function WorkerAfter(s: Sys, step: Step, w: WorkerId): Worker {
    var k := WorkerOf(s, w);
    match step
    case Begin(v, id) => if v == w && k.Idle? && Claimable(s.rows, id) then Claimed(id, s.rows[id].attempts + 1) else k
    case Run(v, error) => if v == w && k.Claimed? then Ran(k.id, k.snapshot, error) else k
    case Mark(v) => if v == w && k.Ran? && k.id in s.rows then Idle else k
    case Crash(v) => if v == w then Idle else k
    case _ => k
  }

  lemma WorkersAfter(cfg: RetryConfig, s: Sys, step: Step)
    ensures forall w :: WorkerOf(Apply(cfg, s, step), w) == WorkerAfter(s, step, w)
  {
  }

  lemma StepKeepsClaims(cfg: RetryConfig, s: Sys, step: Step)
    requires Validates(cfg) && Inv(cfg, s)
    ensures ClaimsAreCurrent(Apply(cfg, s, step))
    ensures forall id :: id in Apply(cfg, s, step).rows ==> AttemptsMatchStatus(cfg, Apply(cfg, s, step).rows[id])
  {
    WorkersAfter(cfg, s, step);
  }

  lemma StepKeepsCounts(cfg: RetryConfig, s: Sys, step: Step)
    requires Validates(cfg) && Inv(cfg, s)
    ensures DispatchesAreCounted(Apply(cfg, s, step))
  {
    WorkersAfter(cfg, s, step);
    if step.Run? && WorkerOf(s, step.w).Claimed? {
      var entry := Dispatch(WorkerOf(s, step.w).id, step.error.None?);
      assert (s.log + [entry])[..|s.log|] == s.log;
    }
  }

  lemma StepKeepsSuccess(cfg: RetryConfig, s: Sys, step: Step)
    requires Validates(cfg) && Inv(cfg, s)
    ensures SuccessIsKept(Apply(cfg, s, step))
  {
    WorkersAfter(cfg, s, step);
    if step.Run? && WorkerOf(s, step.w).Claimed? {
      assert !Succeeded(s.log, WorkerOf(s, step.w).id);
      assert forall i :: 0 <= i < |s.log| && s.log[i].id == WorkerOf(s, step.w).id ==> s.log[i] != Dispatch(WorkerOf(s, step.w).id, true);
    }
  }

  lemma {:induction false} RunKeepsInv(cfg: RetryConfig, s: Sys, steps: seq<Step>)
    requires Validates(cfg) && Inv(cfg, s)
    ensures Inv(cfg, Exec(cfg, s, steps))
  {
    if steps != [] {
      var front, last := steps[..|steps| - 1], steps[|steps| - 1];
      RunKeepsInv(cfg, s, front);
      StepKeepsClaims(cfg, Exec(cfg, s, front), last);
      StepKeepsCounts(cfg, Exec(cfg, s, front), last);
      StepKeepsSuccess(cfg, Exec(cfg, s, front), last);
    }
  }

  /**
   In every run, at most one worker is between claim and mark of an event; that event is then in
   processing and the worker's snapshot of the attempt count is the stored one.
   */
  lemma MutualExclusion(cfg: RetryConfig, steps: seq<Step>, w: WorkerId, other: WorkerId, id: EventId)
    requires Validates(cfg)
    requires Holds(Exec(cfg, START, steps), w, id)
    ensures var s := Exec(cfg, START, steps);
            && id in s.rows && s.rows[id].status == Processing
            && s.rows[id].attempts == WorkerOf(s, w).snapshot
            && (Holds(s, other, id) ==> other == w)
  {
    RunKeepsInv(cfg, START, steps);
  }

  /** In every run an event is dispatched at most maxAttempts times, and its status tells the attempts made. */
  lemma DispatchBound(cfg: RetryConfig, steps: seq<Step>, id: EventId)
    requires Validates(cfg)
    ensures var s := Exec(cfg, START, steps);
            && Runs(s.log, id) <= cfg.maxAttempts
            && (id in s.rows ==> && Runs(s.log, id) <= s.rows[id].attempts <= cfg.maxAttempts
                                 && (s.rows[id].status == Failed ==> s.rows[id].attempts < cfg.maxAttempts)
                                 && (s.rows[id].status == Error ==> s.rows[id].attempts == cfg.maxAttempts))
  {
    RunKeepsInv(cfg, START, steps);
  }

  /** In every run a successful dispatch of an event is the last dispatch of that event. */
  lemma SuccessIsFinal(cfg: RetryConfig, steps: seq<Step>, i: nat, j: nat)
    requires Validates(cfg)
    requires i < j < |Exec(cfg, START, steps).log|
    requires Exec(cfg, START, steps).log[i].id == Exec(cfg, START, steps).log[j].id
    ensures !Exec(cfg, START, steps).log[i].ok
  {
    RunKeepsInv(cfg, START, steps);
  }

  // ---- the waits

  /** Step j is a mark of this event after a dispatch that failed. */
  predicate IsFailedMark(cfg: RetryConfig, steps: seq<Step>, j: nat, id: EventId)
    requires j < |steps|
  {
    && steps[j].Mark?
    && var k := WorkerOf(Exec(cfg, START, steps[..j]), steps[j].w);
       k.Ran? && k.id == id && k.error.Some?
  }

  /** What a mark after a failed dispatch does to the row, from any state a run can reach. */
  lemma FailedMarkWaits(cfg: RetryConfig, s: Sys, w: WorkerId)
    requires Validates(cfg) && Inv(cfg, s) && WorkerOf(s, w).Ran? && WorkerOf(s, w).error.Some?
    requires var k := WorkerOf(s, w); 1 <= k.snapshot < cfg.maxAttempts ==> ProductFits(cfg, k.snapshot)
    ensures var id := WorkerOf(s, w).id; var t := Apply(cfg, s, Mark(w));
            && id in s.rows && id in t.rows && t.rows[id].attempts == s.rows[id].attempts >= 1
            && if s.rows[id].attempts < cfg.maxAttempts then
                 && t.rows[id].status == Failed
                 && t.rows[id].nextAttemptAt == Some(s.clock + Min(cfg.initialBackoff * Pow2(s.rows[id].attempts - 1), cfg.maxBackoff))
               else t.rows[id].status == Error && t.rows[id].nextAttemptAt == None
  {
    var k := WorkerOf(s, w);
    assert Busy(s, w);
    if k.snapshot < cfg.maxAttempts {
      BackoffWhileFits(cfg, k.snapshot);
    }
  }

  /** A row that is failed after a step was marked by it, or was so before. */
  lemma FailedComesFromMark(cfg: RetryConfig, s: Sys, step: Step, id: EventId)
    requires id in Apply(cfg, s, step).rows && Apply(cfg, s, step).rows[id].status == Failed
    ensures || (id in s.rows && Apply(cfg, s, step).rows[id] == s.rows[id])
            || (step.Mark? && WorkerOf(s, step.w).Ran? && WorkerOf(s, step.w).id == id && WorkerOf(s, step.w).error.Some?)
  {
  }

  /** The row is due the doubled-and-capped wait of its stored attempts after step j, which failed it. */
  predicate DueAfter(cfg: RetryConfig, steps: seq<Step>, j: nat, id: EventId, e: Event)
    requires j < |steps|
  {
    && IsFailedMark(cfg, steps, j, id) && e.attempts >= 1
    && e.nextAttemptAt == Some(Exec(cfg, START, steps[..j]).clock + Min(cfg.initialBackoff * Pow2(e.attempts - 1), cfg.maxBackoff))
  }

  lemma LastMarkIsDue(cfg: RetryConfig, steps: seq<Step>, id: EventId, s: Sys, w: WorkerId, t: Sys)
    requires Validates(cfg) && Inv(cfg, s) && steps != [] && s == Exec(cfg, START, steps[..|steps| - 1])
    requires steps[|steps| - 1] == Mark(w) && WorkerOf(s, w).Ran? && WorkerOf(s, w).id == id && WorkerOf(s, w).error.Some?
    requires t == Apply(cfg, s, Mark(w)) && id in t.rows && t.rows[id].status == Failed
    requires t.rows[id].attempts >= 1 ==> ProductFits(cfg, t.rows[id].attempts)
    ensures DueAfter(cfg, steps, |steps| - 1, id, t.rows[id])
  {
    var k := WorkerOf(s, w);
    assert Busy(s, w);
    FailedMarkWaits(cfg, s, w);
  }

  lemma DueAfterInLonger(cfg: RetryConfig, steps: seq<Step>, j: nat, id: EventId, e: Event)
    requires j < |steps| - 1 && DueAfter(cfg, steps[..|steps| - 1], j, id, e)
    ensures DueAfter(cfg, steps, j, id, e)
  {
    assert steps[..|steps| - 1][..j] == steps[..j];
  }

  /**
   In every run a failed row is due exactly the doubled-and-capped wait after the mark that failed it,
   counted from the attempts it stores, as long as that wait is within 64 bits.
   */
  lemma {:induction false} FailedRowsAreDueAfterTheirMark(cfg: RetryConfig, steps: seq<Step>, id: EventId, e: Event)
    requires Validates(cfg) && (e.attempts >= 1 ==> ProductFits(cfg, e.attempts))
    requires id in Exec(cfg, START, steps).rows && Exec(cfg, START, steps).rows[id] == e && e.status == Failed
    ensures exists j :: 0 <= j < |steps| && DueAfter(cfg, steps, j, id, e)
  {
    var front, last := steps[..|steps| - 1], steps[|steps| - 1];
    var s := Exec(cfg, START, front);
    FailedComesFromMark(cfg, s, last, id);
    if last.Mark? && WorkerOf(s, last.w).Ran? && WorkerOf(s, last.w).id == id && WorkerOf(s, last.w).error.Some? {
      RunKeepsInv(cfg, START, front);
      LastMarkIsDue(cfg, steps, id, s, last.w, Apply(cfg, s, last));
    } else {
      FailedRowsAreDueAfterTheirMark(cfg, front, id, e);
      var j :| 0 <= j < |front| && DueAfter(cfg, front, j, id, e);
      DueAfterInLonger(cfg, steps, j, id, e);
    }
  }

  /** Twice the attempts left, plus one while processing. */
  function Measure(cfg: RetryConfig, e: Event): int {
    2 * (cfg.maxAttempts - e.attempts) + if e.status == Processing then 1 else 0
  }

  predicate Absorbed(e: Event) {
    e.status in {Processed, Error}
  }

  lemma StepLowersMeasure(cfg: RetryConfig, s: Sys, step: Step, id: EventId)
    requires Validates(cfg) && Inv(cfg, s) && id in s.rows
    ensures var t := Apply(cfg, s, step);
            && id in t.rows
            && (t.rows[id] == s.rows[id] || 0 <= Measure(cfg, t.rows[id]) < Measure(cfg, s.rows[id]))
            && (Absorbed(s.rows[id]) ==> t.rows[id] == s.rows[id])
  {
  }

  lemma ExecSplits(cfg: RetryConfig, s: Sys, first: seq<Step>, second: seq<Step>)
    ensures Exec(cfg, s, first + second) == Exec(cfg, Exec(cfg, s, first), second)
  {
    if second == [] {
      assert first + second == first;
    } else {
      ExecSplits(cfg, s, first, second[..|second| - 1]);
      assert (first + second)[..|first + second| - 1] == first + second[..|second| - 1];
    }
  }

  /** Processed and error are never left: the whole row is frozen for the rest of any run. */
  lemma {:induction false} AbsorbedForever(cfg: RetryConfig, s: Sys, steps: seq<Step>, id: EventId)
    requires Validates(cfg) && Inv(cfg, s) && id in s.rows && Absorbed(s.rows[id])
    ensures id in Exec(cfg, s, steps).rows && Exec(cfg, s, steps).rows[id] == s.rows[id]
  {
    if steps != [] {
      var front := steps[..|steps| - 1];
      AbsorbedForever(cfg, s, front, id);
      RunKeepsInv(cfg, s, front);
      StepLowersMeasure(cfg, Exec(cfg, s, front), steps[|steps| - 1], id);
    }
  }

  /** How many steps of a run change the row of an event that is already there. */
  ghost function RowChanges(cfg: RetryConfig, s: Sys, steps: seq<Step>, id: EventId): nat {
    if steps == [] then 0 else
    var before := Exec(cfg, s, steps[..|steps| - 1]);
    var after := Exec(cfg, s, steps);
    RowChanges(cfg, s, steps[..|steps| - 1], id)
    + if id in before.rows && id in after.rows && before.rows[id] != after.rows[id] then 1 else 0
  }

  /** The measure bounds the work: no run, however long, changes an event's row more than 2*maxAttempts times. */
  lemma {:induction false} WorkIsBounded(cfg: RetryConfig, s: Sys, steps: seq<Step>, id: EventId)
    requires Validates(cfg) && Inv(cfg, s)
    ensures var t := Exec(cfg, s, steps);
            && RowChanges(cfg, s, steps, id)
               + (if id in t.rows then Measure(cfg, t.rows[id]) else 2 * cfg.maxAttempts)
               <= (if id in s.rows then Measure(cfg, s.rows[id]) else 2 * cfg.maxAttempts)
            && (id in s.rows ==> id in t.rows)
            && RowChanges(cfg, s, steps, id) <= 2 * cfg.maxAttempts
  {
    if steps != [] {
      var front := steps[..|steps| - 1];
      WorkIsBounded(cfg, s, front, id);
      RunKeepsInv(cfg, s, front);
      RunKeepsInv(cfg, s, steps);
      if id in Exec(cfg, s, front).rows {
        StepLowersMeasure(cfg, Exec(cfg, s, front), steps[|steps| - 1], id);
      }
    }
  }

  /**
   What a crash costs. A row left in processing by a worker that is gone is never touched or
   dispatched again, whatever the other workers do: the claim only takes pending and failed rows.
   */
  lemma {:induction false} StrandedForever(cfg: RetryConfig, s: Sys, steps: seq<Step>, id: EventId)
    requires Validates(cfg) && Inv(cfg, s)
    requires id in s.rows && s.rows[id].status == Processing && forall w :: !Holds(s, w, id)
    ensures var t := Exec(cfg, s, steps);
            && id in t.rows && t.rows[id] == s.rows[id]
            && Runs(t.log, id) == Runs(s.log, id)
            && forall w :: !Holds(t, w, id)
  {
    if steps != [] {
      var front, last := steps[..|steps| - 1], steps[|steps| - 1];
      StrandedForever(cfg, s, front, id);
      RunKeepsInv(cfg, s, front);
      StrandedStays(cfg, Exec(cfg, s, front), last, id);
    }
  }

  lemma StrandedStays(cfg: RetryConfig, s: Sys, step: Step, id: EventId)
    requires Inv(cfg, s) && id in s.rows && s.rows[id].status == Processing && forall w :: !Holds(s, w, id)
    ensures var t := Apply(cfg, s, step);
            && id in t.rows && t.rows[id] == s.rows[id]
            && Runs(t.log, id) == Runs(s.log, id)
            && forall w :: !Holds(t, w, id)
  {
    WorkersAfter(cfg, s, step);
    assert forall w :: Busy(s, w) ==> Holds(s, w, WorkerOf(s, w).id);
    if step.Run? && WorkerOf(s, step.w).Claimed? {
      assert Holds(s, step.w, WorkerOf(s, step.w).id);
      assert (s.log + [Dispatch(WorkerOf(s, step.w).id, step.error.None?)])[..|s.log|] == s.log;
    }
  }

  /** The rest of a worker's claim. */
  function Finish(s: Sys, w: WorkerId): seq<Step> {
    if WorkerOf(s, w).Ran? then [Mark(w)] else [Run(w, None), Mark(w)]
  }

  lemma FinishingChangesTheRow(cfg: RetryConfig, s: Sys, w: WorkerId, id: EventId)
    requires Inv(cfg, s) && Holds(s, w, id)
    ensures var t := Exec(cfg, s, Finish(s, w)); id in t.rows && t.rows[id] != s.rows[id]
  {
    if WorkerOf(s, w).Ran? {
      assert [Mark(w)][..0] == [];
      assert Exec(cfg, s, [Mark(w)]) == Apply(cfg, s, Mark(w));
    } else {
      var run: seq<Step> := [Run(w, None), Mark(w)];
      assert run[..1] == [Run(w, None)] && run[..1][..0] == [];
      assert Exec(cfg, s, run[..1]) == Apply(cfg, s, Run(w, None));
      assert Exec(cfg, s, run) == Apply(cfg, Apply(cfg, s, Run(w, None)), Mark(w));
    }
  }

  /** Exactly when a row in processing can still change: some worker holds the event. */
  lemma {:induction false} StrandedExactlyWhenNotHeld(cfg: RetryConfig, s: Sys, id: EventId)
    requires Validates(cfg) && Inv(cfg, s) && id in s.rows && s.rows[id].status == Processing
    ensures (exists steps :: Rewrites(cfg, s, steps, id)) <==> exists w :: Holds(s, w, id)
  {
    if w :| Holds(s, w, id) {
      FinishingChangesTheRow(cfg, s, w, id);
      assert Rewrites(cfg, s, Finish(s, w), id);
    } else {
      forall steps ensures !Rewrites(cfg, s, steps, id) {
        StrandedForever(cfg, s, steps, id);
      }
    }
  }

  /** The steps leave the row of the event other than it is. */
  predicate Rewrites(cfg: RetryConfig, s: Sys, steps: seq<Step>, id: EventId) {
    var t := Exec(cfg, s, steps);
    id in s.rows && (id !in t.rows || t.rows[id] != s.rows[id])
  }

  /** One undisturbed Process call of the service is the run claim, dispatch, mark of this protocol. */
  lemma ProcessIsThreeSteps(cfg: RetryConfig, s: Sys, w: WorkerId, id: EventId, error: Option<string>, took: nat)
    requires Validates(cfg) && WorkerOf(s, w).Idle? && Claimable(s.rows, id)
    ensures var t := Exec(cfg, s, [Begin(w, id), Run(w, error), Advance(took), Mark(w)]);
            && t.rows == s.rows[id := SettledRow(cfg, s.rows[id], error, s.clock, s.clock + took)]
            && t.log == s.log + [Dispatch(id, error.None?)]
            && WorkerOf(t, w).Idle?
  {
    var steps := [Begin(w, id), Run(w, error), Advance(took), Mark(w)];
    assert steps[..3] == [Begin(w, id), Run(w, error), Advance(took)];
    assert steps[..3][..2] == [Begin(w, id), Run(w, error)];
    assert steps[..3][..2][..1] == [Begin(w, id)];
    assert Exec(cfg, s, [Begin(w, id)]) == Apply(cfg, s, Begin(w, id)) by {
      assert [Begin(w, id)][..0] == [];
    }
    assert Exec(cfg, s, steps[..3][..2]) == Apply(cfg, Apply(cfg, s, Begin(w, id)), Run(w, error));
    assert Exec(cfg, s, steps[..3]) == Apply(cfg, Exec(cfg, s, steps[..3][..2]), Advance(took));
  }
}

/**
 The stored-webhook table and the service that claims, processes and marks its rows.
 Each SQL statement is one atomic change of the table.
 */
module WebhookEvents {
  import opened GoInt
  import opened Wrappers
  import opened Strings
  import opened WebhookRetry

  type EventId = nat

  datatype Status = Pending | Processing | Processed | Failed | Error

  datatype Event = Event(
    status: Status,
    attempts: nat,
    receivedAt: Time,
    lastAttemptAt: Option<Time>,
    nextAttemptAt: Option<Time>,
    processedAt: Option<Time>,
    errorMessage: string)

  type Table = map<EventId, Event>

  datatype CreateError = NoProcessor | NoEventType | NoIPAddress

  const MAX_ERROR_LENGTH := 2048

  function TruncateError(message: string): string {
    if |message| > MAX_ERROR_LENGTH then message[..MAX_ERROR_LENGTH] else message
  }

  function ReceivedRow(now: Time): Event {
    Event(Pending, 0, now, None, Some(now), None, "")
  }

  predicate Claimable(rows: Table, id: EventId) {
    id in rows && rows[id].status in {Pending, Failed}
  }

  function ClaimedRow(e: Event, now: Time): Event {
    e.(status := Processing, attempts := e.attempts + 1, lastAttemptAt := Some(now), nextAttemptAt := None)
  }

  function ProcessedRow(e: Event, now: Time): Event {
    e.(status := Processed, processedAt := Some(now), nextAttemptAt := None)
  }

  /** The row after a failure; whether to retry is decided from the caller's snapshot of the attempts. */
  function FailedRow(cfg: RetryConfig, e: Event, snapshot: nat, message: string, now: Time): Event {
    if snapshot < cfg.maxAttempts
    then e.(status := Failed, nextAttemptAt := Some(now + NextBackoff(cfg, snapshot)), errorMessage := TruncateError(message))
    else e.(status := Error, nextAttemptAt := None, errorMessage := TruncateError(message))
  }

  /** The row after a claim, a dispatch that returned `error`, and the matching mark. */
  function SettledRow(cfg: RetryConfig, e: Event, error: Option<string>, begunAt: Time, markedAt: Time): Event {
    var claimed := ClaimedRow(e, begunAt);
    match error
    case None => ProcessedRow(claimed, markedAt)
    case Some(message) => FailedRow(cfg, claimed, claimed.attempts, message, markedAt)
  }

  predicate RetryDue(e: Event, now: Time) {
    e.status in {Pending, Failed} && (e.nextAttemptAt.None? || e.nextAttemptAt.value <= now)
  }

  /** What the retry query may return: due rows, oldest first, cut at the limit. */
  ghost predicate IsRetryBatch(rows: Table, now: Time, limit: nat, batch: seq<EventId>) {
    && |batch| <= limit
    && (forall i, j :: 0 <= i < j < |batch| ==> batch[i] != batch[j])
    && (forall i :: 0 <= i < |batch| ==> batch[i] in rows && RetryDue(rows[batch[i]], now))
    && (forall i, j :: 0 <= i < j < |batch| ==> rows[batch[i]].receivedAt <= rows[batch[j]].receivedAt)
    && (forall id :: id in rows && id !in batch && RetryDue(rows[id], now) ==>
          |batch| == limit && forall i :: 0 <= i < |batch| ==> rows[batch[i]].receivedAt <= rows[id].receivedAt)
  }

  class WebhookEventService {
    const retry: RetryConfig
    var rows: Table

    constructor (retry: RetryConfig)
      ensures this.retry == retry && rows == map[]
    {
      this.retry := retry;
      rows := map[];
    }

    /** Refuses an event without a processor, a type or an address, in this order. */
    method Create(id: EventId, processor: string, eventType: string, ipAddress: string, now: Time) returns (error: Option<CreateError>)
      requires id !in rows
      modifies this
      ensures error == Some(NoProcessor) <==> TrimSpace(ToLower(processor)) == ""
      ensures error == Some(NoEventType) <==> TrimSpace(ToLower(processor)) != "" && eventType == ""
      ensures error == Some(NoIPAddress) <==> TrimSpace(ToLower(processor)) != "" && eventType != "" && ipAddress == ""
      ensures rows == if error.Some? then old(rows) else old(rows)[id := Event(Pending, 0, now, None, Some(now), None, "")]
    {
      if TrimSpace(ToLower(processor)) == "" {
        return Some(NoProcessor);
      }
      if eventType == "" {
        return Some(NoEventType);
      }
      if ipAddress == "" {
        return Some(NoIPAddress);
      }
      rows := rows[id := ReceivedRow(now)];
      error := None;
    }

    /** The compare-and-set claim: None when the row is missing or not claimable. */
    method BeginProcessing(id: EventId, now: Time) returns (event: Option<Event>)
      modifies this
      ensures event.Some? <==> id in old(rows) && old(rows)[id].status in {Pending, Failed}
      ensures event.None? ==> rows == old(rows)
      ensures event.Some? ==>
                && rows == old(rows)[id := event.value]
                && event.value == old(rows)[id].(status := Processing, attempts := old(rows)[id].attempts + 1,
                                                 lastAttemptAt := Some(now), nextAttemptAt := None)
    {
      if id !in rows || rows[id].status !in {Pending, Failed} {
        return None;
      }
      var claimed := ClaimedRow(rows[id], now);
      rows := rows[id := claimed];
      event := Some(claimed);
    }

    method MarkProcessed(id: EventId, now: Time)
      modifies this
      ensures id !in old(rows) ==> rows == old(rows)
      ensures id in old(rows) ==>
                rows == old(rows)[id := old(rows)[id].(status := Processed, processedAt := Some(now), nextAttemptAt := None)]
    {
      if id in rows {
        rows := rows[id := ProcessedRow(rows[id], now)];
      }
    }

    /**
     Waits for the backoff of the attempts in the snapshot, doubled each time up to the maximum, or
     gives up. The row is not due before its time, and never once it is given up.
     */
    method MarkFailure(id: EventId, snapshot: nat, message: string, now: Time) returns (shouldRetry: bool)
      modifies this
      ensures shouldRetry <==> snapshot < retry.maxAttempts
      ensures id !in old(rows) ==> rows == old(rows)
      ensures id in old(rows) ==> rows == old(rows)[id := FailedRow(retry, old(rows)[id], snapshot, message, now)]
      ensures id in old(rows) && Validates(retry) && 1 <= snapshot < retry.maxAttempts && ProductFits(retry, snapshot) ==>
                var due := now + Min(retry.initialBackoff * Pow2(snapshot - 1), retry.maxBackoff);
                && rows[id].status == Failed && rows[id].nextAttemptAt == Some(due)
                && (forall t :: RetryDue(rows[id], t) <==> due <= t)
      ensures id in old(rows) && snapshot >= retry.maxAttempts ==>
                rows[id].status == Error && rows[id].nextAttemptAt == None && forall t :: !RetryDue(rows[id], t)
      ensures id in old(rows) ==>
                && rows[id].attempts == old(rows)[id].attempts && rows[id].receivedAt == old(rows)[id].receivedAt
                && rows[id].errorMessage == if |message| > 2048 then message[..2048] else message
    {
      if Validates(retry) && 1 <= snapshot < retry.maxAttempts && ProductFits(retry, snapshot) {
        BackoffWhileFits(retry, snapshot);
      }
      shouldRetry := snapshot < retry.maxAttempts;
      if id !in rows {
        return;
      }
      var row := rows[id].(errorMessage := TruncateError(message));
      if shouldRetry {
        var backoff := NextBackoff(retry, snapshot);
        row := row.(status := Failed, nextAttemptAt := Some(now + backoff));
      } else {
        row := row.(status := Error, nextAttemptAt := None);
      }
      rows := rows[id := row];
    }
  }

  class WebhookProcessor {
    const events: WebhookEventService

    constructor (events: WebhookEventService)
      ensures this.events == events
    {
      this.events := events;
    }

    /** Claim, dispatch, mark. `error` is what the dispatcher would answer for this event. */
    method Process(id: EventId, error: Option<string>, begunAt: Time, markedAt: Time)
        returns (retry: bool, ok: bool)
      modifies events
      ensures ok <==> Claimable(old(events.rows), id) && error.None?
      ensures !Claimable(old(events.rows), id) ==> events.rows == old(events.rows) && !retry
      ensures Claimable(old(events.rows), id) ==>
                && events.rows == old(events.rows)[id := SettledRow(events.retry, old(events.rows)[id], error, begunAt, markedAt)]
                && (retry <==> events.rows[id].status == Failed)
    {
      var event := events.BeginProcessing(id, begunAt);
      if event.None? {
        return false, false;
      }
      match error {
        case Some(message) =>
          retry := events.MarkFailure(id, event.value.attempts, message, markedAt);
          ok := false;
        case None =>
          events.MarkProcessed(id, markedAt);
          retry, ok := false, true;
      }
    }

    /**
     The retry sweep: every event of the batch is settled once, in order, and nothing else
     changes; the error reported is that of the first event that failed.
     */
    method RetryBatch(batch: seq<EventId>, answer: EventId -> Option<string>, now: Time) returns (firstFailed: Option<EventId>)
      requires IsRetryBatch(events.rows, now, |batch|, batch)
      modifies events
      ensures events.rows.Keys == old(events.rows).Keys
      ensures forall id :: id in old(events.rows) ==>
                events.rows[id] == if id in batch then SettledRow(events.retry, old(events.rows)[id], answer(id), now, now)
                                   else old(events.rows)[id]
      ensures firstFailed == FirstFailure(batch, answer)
    {
      firstFailed := None;
      ghost var before := events.rows;
      for k := 0 to |batch|
        invariant events.rows.Keys == before.Keys
        invariant forall id :: id in before ==>
                    events.rows[id] == if id in batch[..k] then SettledRow(events.retry, before[id], answer(id), now, now)
                                       else before[id]
        invariant firstFailed == FirstFailure(batch[..k], answer)
      {
        var id := batch[k];
        assert batch[..k + 1] == batch[..k] + [id];
        assert Claimable(events.rows, id) by {
          assert id !in batch[..k];
        }
        var _, ok := Process(id, answer(id), now, now);
        if !ok && firstFailed.None? {
          firstFailed := Some(id);
        }
      }
      assert batch[..|batch|] == batch;
    }
  }

  /** The event whose error a sweep returns. */
  function FirstFailure(batch: seq<EventId>, answer: EventId -> Option<string>): Option<EventId> {
    if batch == [] then None else
    var earlier, id := FirstFailure(batch[..|batch| - 1], answer), batch[|batch| - 1];
    if earlier.Some? then earlier else if answer(id).Some? then Some(id) else None
  }

  lemma {:induction false} FirstFailureIsFirst(batch: seq<EventId>, answer: EventId -> Option<string>)
    ensures match FirstFailure(batch, answer)
            case None => forall i :: 0 <= i < |batch| ==> answer(batch[i]).None?
            case Some(id) => exists k :: 0 <= k < |batch| && batch[k] == id && answer(id).Some?
                                         && forall i :: 0 <= i < k ==> answer(batch[i]).None?
  {
    if batch != [] {
      var front := batch[..|batch| - 1];
      FirstFailureIsFirst(front, answer);
      if FirstFailure(front, answer).Some? {
        var k :| 0 <= k < |front| && front[k] == FirstFailure(front, answer).value
                 && forall i :: 0 <= i < k ==> answer(front[i]).None?;
        assert batch[k] == front[k] && forall i :: 0 <= i < k ==> batch[i] == front[i];
      } else {
        assert forall i :: 0 <= i < |front| ==> batch[i] == front[i];
      }
    }
  }
}

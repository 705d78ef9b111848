/**
 Webhook redelivery. An event is handled under an idempotency record of its type and id; the
 record is not a lock but a memory of success. Failing to update it is only logged.
 */
module Deduplication {
  import opened Wrappers
  import opened Strings
  import opened Idempotency

  /** One delivery: what the handler would answer, and whether the record could be updated. */
  datatype Delivery = Delivery(eventType: string, eventId: string, error: Option<string>, payload: Option<string>, recorded: bool)

  function Operation(processor: string, eventType: string): string {
    "webhook." + processor + "." + eventType
  }

  /** The record of an event; events without an id have none. */
  function SlotOf(processor: string, eventType: string, eventId: string): Option<Slot> {
    CleanSlot(Operation(processor, eventType), eventId)
  }

  predicate HasSucceeded(rows: Table, slot: Slot) {
    Find(rows, slot).Some? && rows[Find(rows, slot).value].status == Success
  }

  function Recorded(rows: Table, slot: Slot, error: Option<string>, payload: Option<string>, recorded: bool): Table {
    var claimed := Claimed(rows, slot);
    match Find(claimed, slot)
    case None => claimed
    case Some(id) =>
      if !recorded then claimed
      else if error.None? then Updated(claimed, id, Success, payload)
      else Updated(claimed, id, Failed, error)
  }

  predicate MustRun(rows: Table, slot: Option<Slot>) {
    slot.None? || !HasSucceeded(rows, slot.value)
  }

  function Delivered(rows: Table, slot: Option<Slot>, error: Option<string>, payload: Option<string>, recorded: bool): Table {
    if slot.None? || HasSucceeded(rows, slot.value) then rows else Recorded(rows, slot.value, error, payload, recorded)
  }

  class DeduplicationService {
    const idem: IdempotencyService

    constructor (idem: IdempotencyService)
      ensures this.idem == idem
    {
      this.idem := idem;
    }

    /** `error` is what the handler answers when it is run; `ran` says whether it was. */
    method ProcessWebhook(processor: string, d: Delivery) returns (ran: bool, error: Option<string>)
      requires DistinctSlots(idem.rows)
      modifies idem
      ensures DistinctSlots(idem.rows)
      ensures var slot := SlotOf(processor, d.eventType, d.eventId);
              && ran == MustRun(old(idem.rows), slot)
              && error == (if ran then d.error else None)
              && idem.rows == Delivered(old(idem.rows), slot, d.error, d.payload, d.recorded)
    {
      var eventId := TrimSpace(d.eventId);
      var record := None;
      if eventId != "" {
        OperationTrims(processor, d.eventType);
        TrimSpaceIsTrimmed(d.eventId);
        TrimmedStays(eventId);
        var begun := idem.Begin(Operation(processor, d.eventType), eventId, false);
        if begun.value.existed && idem.rows[begun.value.id].status == Success {
          return false, None;
        }
        record := Some(begun.value.id);
      }
      if d.recorded && record.Some? {
        var _ := Settle(record.value, d.error, d.payload);
      }
      return true, d.error;
    }

    method Settle(id: nat, error: Option<string>, payload: Option<string>) returns (ok: bool)
      requires DistinctSlots(idem.rows)
      modifies idem
      ensures DistinctSlots(idem.rows)
      ensures ok <==> id < |old(idem.rows)|
      ensures idem.rows == if error.None? then Updated(old(idem.rows), id, Success, payload)
                           else Updated(old(idem.rows), id, Failed, error)
    {
      if error.Some? {
        ok := idem.Fail(id, error);
      } else {
        ok := idem.Complete(id, payload);
      }
    }
  }

  /** Trimming an operation trims the event type, on the right. */
  lemma OperationTrims(processor: string, eventType: string)
    ensures TrimSpace(Operation(processor, eventType)) == Operation(processor, TrimRight(eventType)) != ""
  {
    var prefix := "webhook." + processor + ".";
    assert prefix[0] == 'w' && prefix[|prefix| - 1] == '.';
    TrimsAfter(prefix, eventType);
  }

  lemma TrimsAfter(prefix: string, s: string)
    requires prefix != "" && !IsSpace(prefix[0]) && !IsSpace(prefix[|prefix| - 1])
    ensures TrimSpace(prefix + s) == prefix + TrimRight(s)
  {
    assert (prefix + s)[0] == prefix[0];
    TrimRightAppends(prefix, s);
  }

  /** Deliveries of one event: the same id, and the same type up to trailing space. */
  predicate SameEvent(type1: string, id1: string, type2: string, id2: string) {
    TrimSpace(id1) == TrimSpace(id2) != "" && TrimRight(type1) == TrimRight(type2)
  }

  /** Two deliveries share a record exactly when they are of one event; blank ids have none. */
  lemma SlotsAgreeIffSameEvent(processor: string, type1: string, id1: string, type2: string, id2: string)
    ensures SlotOf(processor, type1, id1).None? <==> TrimSpace(id1) == ""
    ensures SlotOf(processor, type1, id1).Some? ==>
              (SlotOf(processor, type1, id1) == SlotOf(processor, type2, id2) <==> SameEvent(type1, id1, type2, id2))
  {
    OperationsAgree(processor, type1, type2);
    CleanSlotsAgree(Operation(processor, type1), id1, Operation(processor, type2), id2);
  }

  lemma OperationsAgree(processor: string, type1: string, type2: string)
    ensures TrimSpace(Operation(processor, type1)) != "" && TrimSpace(Operation(processor, type2)) != ""
    ensures TrimSpace(Operation(processor, type1)) == TrimSpace(Operation(processor, type2)) <==> TrimRight(type1) == TrimRight(type2)
  {
    OperationTrims(processor, type1);
    OperationTrims(processor, type2);
    OperationEndsInType(processor, TrimRight(type1), TrimRight(type2));
  }

  lemma CleanSlotsAgree(operation1: string, key1: string, operation2: string, key2: string)
    requires TrimSpace(operation1) != "" && TrimSpace(operation2) != ""
    ensures CleanSlot(operation1, key1).None? <==> TrimSpace(key1) == ""
    ensures TrimSpace(key1) != "" ==>
              (CleanSlot(operation1, key1) == CleanSlot(operation2, key2)
               <==> TrimSpace(operation1) == TrimSpace(operation2) && TrimSpace(key1) == TrimSpace(key2))
  {
  }

  lemma OperationEndsInType(processor: string, type1: string, type2: string)
    ensures Operation(processor, type1) == Operation(processor, type2) <==> type1 == type2
  {
    var prefix := "webhook." + processor + ".";
    assert type1 == (prefix + type1)[|prefix|..] && type2 == (prefix + type2)[|prefix|..];
  }

  // ---- deliveries one after the other

  /** A delivery under the record of its event. */
  datatype Attempt = Attempt(slot: Option<Slot>, error: Option<string>, payload: Option<string>, recorded: bool)

  function AttemptFor(processor: string, d: Delivery): Attempt {
    Attempt(SlotOf(processor, d.eventType, d.eventId), d.error, d.payload, d.recorded)
  }

  function Exec(ds: seq<Attempt>): Table {
    if ds == [] then [] else
    var d := ds[|ds| - 1];
    Delivered(Exec(ds[..|ds| - 1]), d.slot, d.error, d.payload, d.recorded)
  }

  /** The handler is run for delivery i. */
  predicate Ran(ds: seq<Attempt>, i: nat)
    requires i < |ds|
  {
    MustRun(Exec(ds[..i]), ds[i].slot)
  }

  /** The delivery is of this event, and would succeed and be recorded. */
  predicate Succeeds(d: Attempt, slot: Slot) {
    d.slot == Some(slot) && d.error.None? && d.recorded
  }

  lemma DeliveryKeepsRows(rows: Table, slot: Slot, error: Option<string>, payload: Option<string>, recorded: bool, other: Slot)
    requires DistinctSlots(rows)
    ensures var after := Recorded(rows, slot, error, payload, recorded);
            && DistinctSlots(after)
            && (other != slot ==> (HasSucceeded(after, other) <==> HasSucceeded(rows, other)))
            && (!HasSucceeded(rows, slot) ==> (HasSucceeded(after, slot) <==> error.None? && recorded))
  {
    var claimed := Claimed(rows, slot);
    ClaimKeepsRows(rows, slot, other);
    ClaimKeepsRows(rows, slot, slot);
    if recorded {
      var status, result := if error.None? then Success else Failed, if error.None? then payload else error;
      UpdateSettlesOne(claimed, Find(claimed, slot).value, status, result, other);
      UpdateSettlesOne(claimed, Find(claimed, slot).value, status, result, slot);
    }
  }

  /** A recorded delivery whose handler ran leaves a record of how it ended: its payload, or its error. */
  lemma DeliveryIsRecorded(rows: Table, slot: Slot, error: Option<string>, payload: Option<string>)
    requires !HasSucceeded(rows, slot)
    ensures match error
            case None => Record(slot, Success, payload) in Delivered(rows, Some(slot), error, payload, true)
            case Some(_) => Record(slot, Failed, error) in Delivered(rows, Some(slot), error, payload, true)
  {
    var claimed := Claimed(rows, slot);
    assert Find(rows, slot).None? ==> claimed[|rows|].slot == slot;
    var id := Find(claimed, slot).value;
    assert Delivered(rows, Some(slot), error, payload, true)[id].slot == slot;
  }

  lemma ClaimKeepsRows(rows: Table, slot: Slot, other: Slot)
    requires DistinctSlots(rows)
    ensures var claimed := Claimed(rows, slot);
            && DistinctSlots(claimed) && Find(claimed, slot).Some?
            && (HasSucceeded(claimed, other) <==> HasSucceeded(rows, other))
  {
    if Find(rows, slot).None? {
      assert Claimed(rows, slot)[..|rows|] == rows;
    }
  }

  lemma UpdateSettlesOne(rows: Table, id: nat, status: Status, result: Option<string>, other: Slot)
    requires DistinctSlots(rows) && id < |rows|
    ensures var after := Updated(rows, id, status, result);
            && DistinctSlots(after)
            && (HasSucceeded(after, other) <==> if rows[id].slot == other then status == Success else HasSucceeded(rows, other))
  {
    FindAfterUpdate(rows, id, status, result, other);
  }

  lemma {:induction false} SuccessIsRemembered(ds: seq<Attempt>, slot: Slot)
    ensures DistinctSlots(Exec(ds))
    ensures HasSucceeded(Exec(ds), slot) <==> exists j :: 0 <= j < |ds| && Succeeds(ds[j], slot)
  {
    if ds != [] {
      var front, d := ds[..|ds| - 1], ds[|ds| - 1];
      SuccessIsRemembered(front, slot);
      DeliveryAddsSuccess(Exec(front), d, slot);
      assert forall j :: 0 <= j < |front| ==> front[j] == ds[j];
    }
  }

  lemma DeliveryAddsSuccess(rows: Table, d: Attempt, slot: Slot)
    requires DistinctSlots(rows)
    ensures var after := Delivered(rows, d.slot, d.error, d.payload, d.recorded);
            DistinctSlots(after) && (HasSucceeded(after, slot) <==> HasSucceeded(rows, slot) || Succeeds(d, slot))
  {
    if d.slot.Some? {
      DeliveryKeepsRows(rows, d.slot.value, d.error, d.payload, d.recorded, slot);
    }
  }

  lemma SlotIsRunUntilSuccess(ds: seq<Attempt>, i: nat)
    requires i < |ds|
    ensures var slot := ds[i].slot;
            Ran(ds, i) <==> slot.None? || forall j :: 0 <= j < i ==> !Succeeds(ds[j], slot.value)
  {
    var slot := ds[i].slot;
    if slot.Some? {
      SuccessIsRemembered(ds[..i], slot.value);
      assert forall j :: 0 <= j < i ==> ds[..i][j] == ds[j];
    }
  }

  function AttemptsFor(processor: string, ds: seq<Delivery>): seq<Attempt> {
    seq(|ds|, i requires 0 <= i < |ds| => AttemptFor(processor, ds[i]))
  }

  /** An earlier delivery of the same event that would succeed and be recorded. */
  predicate SucceededBefore(earlier: Delivery, d: Delivery) {
    SameEvent(earlier.eventType, earlier.eventId, d.eventType, d.eventId) && earlier.error.None? && earlier.recorded
  }

  lemma SuccessOfTheEvent(processor: string, earlier: Delivery, d: Delivery)
    requires SlotOf(processor, d.eventType, d.eventId).Some?
    ensures Succeeds(AttemptFor(processor, earlier), SlotOf(processor, d.eventType, d.eventId).value) <==> SucceededBefore(earlier, d)
  {
    SlotsAgreeIffSameEvent(processor, d.eventType, d.eventId, earlier.eventType, earlier.eventId);
  }

  /**
   In any serial run the handler is run for a delivery exactly when its id is blank, or no earlier
   delivery of the same event type and id succeeded and was recorded: always before that, never after.
   */
  lemma HandlerRunsUntilSuccess(processor: string, ds: seq<Delivery>, i: nat)
    requires i < |ds|
    ensures Ran(AttemptsFor(processor, ds), i)
       <==> TrimSpace(ds[i].eventId) == "" || forall j :: 0 <= j < i ==> !SucceededBefore(ds[j], ds[i])
  {
    var attempts, d := AttemptsFor(processor, ds), ds[i];
    SlotIsRunUntilSuccess(attempts, i);
    SlotsAgreeIffSameEvent(processor, d.eventType, d.eventId, d.eventType, d.eventId);
    if attempts[i].slot.Some? {
      forall j | 0 <= j < i ensures Succeeds(attempts[j], attempts[i].slot.value) <==> SucceededBefore(ds[j], d) {
        SuccessOfTheEvent(processor, ds[j], d);
      }
    }
  }
}

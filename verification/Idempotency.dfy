/**
 The idempotency table, with its unique (operation, key), and the service that claims a row in it.
 A record's id is its position: rows are never deleted.
 */
module Idempotency {
  import opened Wrappers
  import opened Strings

  datatype Status = Pending | Success | Failed

  datatype Slot = Slot(operation: string, key: string)

  datatype Record = Record(slot: Slot, status: Status, result: Option<string>)

  type Table = seq<Record>

  datatype Begun = Begun(id: nat, existed: bool)

  function Find(rows: Table, slot: Slot): (r: Option<nat>)
    ensures r.Some? ==> r.value < |rows| && rows[r.value].slot == slot
    ensures r.None? ==> forall i :: 0 <= i < |rows| ==> rows[i].slot != slot
  {
    if rows == [] then None
    else if rows[|rows| - 1].slot == slot then Some(|rows| - 1)
    else Find(rows[..|rows| - 1], slot)
  }

  predicate DistinctSlots(rows: Table) {
    forall i, j :: 0 <= i < j < |rows| ==> rows[i].slot != rows[j].slot
  }

  function NewRecord(slot: Slot): Record {
    Record(slot, Pending, None)
  }

  /** The row a request is about; none when the operation or the key is blank. */
  function CleanSlot(operation: string, key: string): Option<Slot> {
    var slot := Slot(TrimSpace(operation), TrimSpace(key));
    if slot.operation == "" || slot.key == "" then None else Some(slot)
  }

  function Claimed(rows: Table, slot: Slot): Table {
    if Find(rows, slot).Some? then rows else rows + [NewRecord(slot)]
  }

  function Updated(rows: Table, id: nat, status: Status, result: Option<string>): Table {
    if id < |rows| then rows[id := rows[id].(status := status, result := result)] else rows
  }

  class IdempotencyService {
    var rows: Table

    constructor ()
      ensures rows == []
    {
      rows := [];
    }

    method GetByOperationAndKey(slot: Slot) returns (id: Option<nat>)
      ensures id == Find(rows, slot)
    {
      id := Find(rows, slot);
    }

    /** The unique index refuses a second row for a slot. */
    method Insert(slot: Slot) returns (ok: bool)
      modifies this
      ensures ok <==> Find(old(rows), slot).None?
      ensures rows == Claimed(old(rows), slot)
    {
      ok := Find(rows, slot).None?;
      if ok {
        rows := rows + [NewRecord(slot)];
      }
    }

    /**
     Claims the slot, or reports the row that is already there. `rival` says whether another
     request claims the same slot between our lookup and our insert.
     */
    method Begin(operation: string, key: string, rival: bool) returns (r: Result<Begun, string>)
      requires DistinctSlots(rows)
      modifies this
      ensures DistinctSlots(rows)
      ensures r.Err? <==> CleanSlot(operation, key).None?
      ensures r.Err? ==> rows == old(rows)
      ensures r.Ok? ==>
                var slot := CleanSlot(operation, key).value;
                && rows == Claimed(old(rows), slot)
                && Find(rows, slot) == Some(r.value.id)
                && (r.value.existed <==> Find(old(rows), slot).Some? || rival)
    {
      var slot := Slot(TrimSpace(operation), TrimSpace(key));
      if slot.operation == "" || slot.key == "" {
        return Err("idempotency operation and key are required");
      }
      var found := GetByOperationAndKey(slot);
      if found.Some? {
        return Ok(Begun(found.value, true));
      }
      if rival {
        var _ := Insert(slot);
      }
      var ok := Insert(slot);
      found := GetByOperationAndKey(slot);
      r := Ok(Begun(found.value, !ok));
    }

    method UpdateStatus(id: nat, status: Status, result: Option<string>) returns (ok: bool)
      modifies this
      ensures ok <==> id < |old(rows)|
      ensures rows == Updated(old(rows), id, status, result)
    {
      ok := id < |rows|;
      if ok {
        rows := rows[id := rows[id].(status := status, result := result)];
      }
    }

    method Complete(id: nat, result: Option<string>) returns (ok: bool)
      modifies this
      ensures ok <==> id < |old(rows)|
      ensures rows == Updated(old(rows), id, Success, result)
    {
      ok := UpdateStatus(id, Success, result);
    }

    method Fail(id: nat, failure: Option<string>) returns (ok: bool)
      modifies this
      ensures ok <==> id < |old(rows)|
      ensures rows == Updated(old(rows), id, Failed, failure)
    {
      ok := UpdateStatus(id, Failed, failure);
    }
  }

  lemma FindAfterUpdate(rows: Table, id: nat, status: Status, result: Option<string>, slot: Slot)
    requires DistinctSlots(rows)
    ensures DistinctSlots(Updated(rows, id, status, result))
    ensures Find(Updated(rows, id, status, result), slot) == Find(rows, slot)
  {
    var after := Updated(rows, id, status, result);
    assert forall i :: 0 <= i < |rows| ==> after[i].slot == rows[i].slot;
    match Find(rows, slot)
    case Some(i) => assert after[i].slot == slot;
    case None =>
  }
}

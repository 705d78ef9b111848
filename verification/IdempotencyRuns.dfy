/**
 Concurrent requests guarded by the idempotency table, as Subscribe guards its recurring charge:
 look the slot up, insert, look again on a conflict, charge when the insert went through, and
 settle the record. A request can be abandoned after any of its steps.
 */
module IdempotencyRuns {
  import opened Wrappers
  import opened Idempotency

  type ClientId = nat

  datatype Client =
    | Idle
    | Looked(slot: Slot)
    | Conflicted(slot: Slot)
    | Granted(slot: Slot, id: nat)
    | Charged(slot: Slot, id: nat, ok: bool)

  /** What has happened so far, oldest first. */
  datatype Entry =
    | Grant(slot: Slot)
    | Refusal(slot: Slot)
    | Charge(slot: Slot, ok: bool)

  datatype Sys = Sys(rows: Table, clients: map<ClientId, Client>, log: seq<Entry>)

  datatype Step =
    | Look(c: ClientId, slot: Slot)
    | Insert(c: ClientId)
    | Reread(c: ClientId)
    | RequestCharge(c: ClientId, ok: bool)
    | Settle(c: ClientId, storable: bool, result: Option<string>)
    | Abandon(c: ClientId)

  const START := Sys([], map[], [])

  function ClientOf(s: Sys, c: ClientId): Client {
    if c in s.clients then s.clients[c] else Idle
  }

  function Moved(s: Sys, c: ClientId, k: Client): Sys {
    s.(clients := s.clients[c := k])
  }

  function Logged(s: Sys, e: Entry): Sys {
    s.(log := s.log + [e])
  }

  /** A charge that went through is recorded as a success only when its response can be stored. */
  function Outcome(ok: bool, storable: bool): Status {
    if ok && storable then Success else Failed
  }

  function Apply(s: Sys, step: Step): Sys {
    var k := ClientOf(s, step.c);
    match step
    case Look(c, slot) =>
      if !k.Idle? then s
      else if Find(s.rows, slot).Some? then Logged(s, Refusal(slot))
      else Moved(s, c, Looked(slot))
    case Insert(c) =>
      if !k.Looked? then s
      else if Find(s.rows, k.slot).Some? then Moved(s, c, Conflicted(k.slot))
      else Logged(Moved(s.(rows := s.rows + [NewRecord(k.slot)]), c, Granted(k.slot, |s.rows|)), Grant(k.slot))
    case Reread(c) =>
      if !k.Conflicted? then s
      else Logged(Moved(s, c, Idle), Refusal(k.slot))
    case RequestCharge(c, ok) =>
      if !k.Granted? then s
      else Logged(Moved(s, c, Charged(k.slot, k.id, ok)), Charge(k.slot, ok))
    case Settle(c, storable, result) =>
      if !k.Charged? then s
      else Moved(s.(rows := Updated(s.rows, k.id, Outcome(k.ok, storable), result)), c, Idle)
    case Abandon(c) => Moved(s, c, Idle)
  }

  function Exec(s: Sys, steps: seq<Step>): Sys {
    if steps == [] then s else Apply(Exec(s, steps[..|steps| - 1]), steps[|steps| - 1])
  }

  function Grants(log: seq<Entry>, slot: Slot): nat {
    if log == [] then 0 else
    var e := log[|log| - 1];
    Grants(log[..|log| - 1], slot) + if e.Grant? && e.slot == slot then 1 else 0
  }

  function Charges(log: seq<Entry>, slot: Slot): nat {
    if log == [] then 0 else
    var e := log[|log| - 1];
    Charges(log[..|log| - 1], slot) + if e.Charge? && e.slot == slot then 1 else 0
  }

  predicate ChargedOk(log: seq<Entry>, slot: Slot) {
    Charge(slot, true) in log
  }

  /** Every row was granted once, and what was not granted has no row. */
  ghost predicate GrantsMatchRows(s: Sys) {
    && DistinctSlots(s.rows)
    && forall slot :: Grants(s.log, slot) == if Find(s.rows, slot).Some? then 1 else 0
  }

  predicate OwnsRow(s: Sys, id: nat, slot: Slot) {
    id < |s.rows| && s.rows[id].slot == slot && Grants(s.log, slot) == 1
  }

  /** A client that may still charge has been granted the row, and nothing was charged for it yet. */
  ghost predicate ClientIsSound(s: Sys, c: ClientId) {
    match ClientOf(s, c)
    case Conflicted(slot) => Grants(s.log, slot) == 1
    case Granted(slot, id) => OwnsRow(s, id, slot) && Charges(s.log, slot) == 0
    case Charged(slot, id, ok) => OwnsRow(s, id, slot) && (ok ==> ChargedOk(s.log, slot))
    case _ => true
  }

  predicate ShareRow(s: Sys, c: ClientId, d: ClientId) {
    && ClientOf(s, c).Granted? && ClientOf(s, d).Granted?
    && ClientOf(s, c).slot == ClientOf(s, d).slot
  }

  predicate RefusedFor(log: seq<Entry>, j: nat)
    requires j < |log|
  {
    log[j].Refusal? ==> exists i :: 0 <= i < j && log[i] == Grant(log[j].slot)
  }

  predicate RefusalsAreJustified(s: Sys) {
    forall j :: 0 <= j < |s.log| ==> RefusedFor(s.log, j)
  }

  predicate SuccessWasCharged(s: Sys) {
    forall i :: 0 <= i < |s.rows| && s.rows[i].status == Success ==> ChargedOk(s.log, s.rows[i].slot)
  }

  ghost predicate Inv(s: Sys) {
    && GrantsMatchRows(s)
    && (forall slot :: Charges(s.log, slot) <= Grants(s.log, slot))
    && (forall c :: ClientIsSound(s, c))
    && (forall c, d :: ShareRow(s, c, d) ==> c == d)
    && RefusalsAreJustified(s)
    && SuccessWasCharged(s)
  }

  function ClientAfter(s: Sys, step: Step, c: ClientId): Client {
    var k := ClientOf(s, c);
    if step.c != c then k else
    match step
    case Look(_, slot) => if k.Idle? && Find(s.rows, slot).None? then Looked(slot) else k
    case Insert(_) => if !k.Looked? then k else if Find(s.rows, k.slot).Some? then Conflicted(k.slot) else Granted(k.slot, |s.rows|)
    case Reread(_) => if k.Conflicted? then Idle else k
    case RequestCharge(_, ok) => if k.Granted? then Charged(k.slot, k.id, ok) else k
    case Settle(_, _, _) => if k.Charged? then Idle else k
    case Abandon(_) => Idle
  }

  lemma ClientsAfter(s: Sys, step: Step)
    ensures forall c :: ClientOf(Apply(s, step), c) == ClientAfter(s, step, c)
  {
  }

  lemma LogGrows(log: seq<Entry>, e: Entry)
    ensures (log + [e])[..|log + [e]| - 1] == log
  {
  }

  lemma NewRowIsFound(rows: Table, slot: Slot, other: Slot)
    requires DistinctSlots(rows) && Find(rows, slot).None?
    ensures DistinctSlots(rows + [NewRecord(slot)])
    ensures Find(rows + [NewRecord(slot)], other).Some? <==> other == slot || Find(rows, other).Some?
  {
    assert (rows + [NewRecord(slot)])[..|rows|] == rows;
  }

  lemma StepKeepsGrants(s: Sys, step: Step)
    requires Inv(s)
    ensures GrantsMatchRows(Apply(s, step))
  {
    var k, t := ClientOf(s, step.c), Apply(s, step);
    if |t.log| > |s.log| {
      LogGrows(s.log, t.log[|s.log|]);
    }
    forall slot ensures Grants(t.log, slot) == if Find(t.rows, slot).Some? then 1 else 0 {
      if step.Insert? && k.Looked? && Find(s.rows, k.slot).None? {
        NewRowIsFound(s.rows, k.slot, slot);
      }
      if step.Settle? && k.Charged? {
        FindAfterUpdate(s.rows, k.id, Outcome(k.ok, step.storable), step.result, slot);
      }
    }
    if step.Insert? && k.Looked? && Find(s.rows, k.slot).None? {
      NewRowIsFound(s.rows, k.slot, k.slot);
    }
    if step.Settle? && k.Charged? {
      FindAfterUpdate(s.rows, k.id, Outcome(k.ok, step.storable), step.result, k.slot);
    }
  }

  predicate GrantsNow(s: Sys, step: Step, slot: Slot) {
    step.Insert? && ClientOf(s, step.c).Looked? && ClientOf(s, step.c).slot == slot && Find(s.rows, slot).None?
  }

  predicate ChargesNow(s: Sys, step: Step, slot: Slot) {
    step.RequestCharge? && ClientOf(s, step.c).Granted? && ClientOf(s, step.c).slot == slot
  }

  lemma CountsAfter(s: Sys, step: Step, slot: Slot)
    ensures var t := Apply(s, step);
            && Grants(t.log, slot) == Grants(s.log, slot) + (if GrantsNow(s, step, slot) then 1 else 0)
            && Charges(t.log, slot) == Charges(s.log, slot) + (if ChargesNow(s, step, slot) then 1 else 0)
  {
    var t := Apply(s, step);
    if |t.log| > |s.log| {
      LogGrows(s.log, t.log[|s.log|]);
    }
  }

  lemma StepKeepsCharges(s: Sys, step: Step, slot: Slot)
    requires Inv(s)
    ensures Charges(Apply(s, step).log, slot) <= Grants(Apply(s, step).log, slot)
  {
    CountsAfter(s, step, slot);
    assert Charges(s.log, slot) <= Grants(s.log, slot);
    if ChargesNow(s, step, slot) {
      assert ClientIsSound(s, step.c);
    }
  }

  lemma LogIsKept(s: Sys, step: Step, e: Entry)
    requires e in s.log
    ensures e in Apply(s, step).log
  {
  }

  lemma StepKeepsClient(s: Sys, step: Step, c: ClientId)
    requires Inv(s)
    ensures ClientIsSound(Apply(s, step), c)
  {
    ClientsAfter(s, step);
    var k, l, t := ClientOf(s, c), ClientOf(Apply(s, step), c), Apply(s, step);
    assert ClientIsSound(s, c) && ClientIsSound(s, step.c);
    if l.Idle? || l.Looked? {
      return;
    }
    CountsAfter(s, step, l.slot);
    if l == k {
      if k.Granted? && step.c != c {
        assert !ShareRow(s, step.c, c);
      }
      if k.Charged? && k.ok {
        LogIsKept(s, step, Charge(k.slot, true));
      }
    }
  }

  lemma StepKeepsOwnersApart(s: Sys, step: Step, c: ClientId, d: ClientId)
    requires Inv(s)
    ensures ShareRow(Apply(s, step), c, d) ==> c == d
  {
    ClientsAfter(s, step);
    if c == step.c && d != c {
      MoverIsApart(s, step, d);
    } else if d == step.c && d != c {
      MoverIsApart(s, step, c);
    } else {
      assert ShareRow(Apply(s, step), c, d) && c != d ==> ShareRow(s, c, d);
    }
  }

  lemma MoverIsApart(s: Sys, step: Step, other: ClientId)
    requires Inv(s) && other != step.c
    ensures !ShareRow(Apply(s, step), step.c, other)
  {
    ClientsAfter(s, step);
    OwnerBlocksGrant(s, step, other);
    assert !ShareRow(s, step.c, other);
  }

  lemma OwnerBlocksGrant(s: Sys, step: Step, other: ClientId)
    requires Inv(s)
    ensures ClientOf(s, other).Granted? ==> !GrantsNow(s, step, ClientOf(s, other).slot)
  {
    assert ClientIsSound(s, other);
  }

  lemma GrantIsLogged(log: seq<Entry>, slot: Slot)
    requires Grants(log, slot) > 0
    ensures exists i :: 0 <= i < |log| && log[i] == Grant(slot)
  {
    if log[|log| - 1] != Grant(slot) {
      GrantIsLogged(log[..|log| - 1], slot);
    }
  }

  lemma StepKeepsRefusals(s: Sys, step: Step)
    requires Inv(s)
    ensures RefusalsAreJustified(Apply(s, step))
  {
    var t := Apply(s, step);
    assert ClientIsSound(s, step.c);
    assert forall i :: 0 <= i < |s.log| ==> t.log[i] == s.log[i];
    forall j | 0 <= j < |t.log| ensures RefusedFor(t.log, j) {
      if j < |s.log| {
        assert RefusedFor(s.log, j);
      } else if t.log[j].Refusal? {
        GrantIsLogged(s.log, t.log[j].slot);
        var i :| 0 <= i < |s.log| && s.log[i] == Grant(t.log[j].slot);
        assert t.log[i] == Grant(t.log[j].slot);
      }
    }
  }

  lemma StepKeepsSuccess(s: Sys, step: Step)
    requires Inv(s)
    ensures SuccessWasCharged(Apply(s, step))
  {
    assert ClientIsSound(s, step.c);
  }

  lemma StepKeepsInv(s: Sys, step: Step)
    requires Inv(s)
    ensures Inv(Apply(s, step))
  {
    StepKeepsGrants(s, step);
    forall slot ensures Charges(Apply(s, step).log, slot) <= Grants(Apply(s, step).log, slot) {
      StepKeepsCharges(s, step, slot);
    }
    forall c: ClientId ensures ClientIsSound(Apply(s, step), c) {
      StepKeepsClient(s, step, c);
    }
    forall c: ClientId, d: ClientId ensures ShareRow(Apply(s, step), c, d) ==> c == d {
      StepKeepsOwnersApart(s, step, c, d);
    }
    StepKeepsRefusals(s, step);
    StepKeepsSuccess(s, step);
  }

  lemma {:induction false} RunKeepsInv(steps: seq<Step>)
    ensures Inv(Exec(START, steps))
  {
    if steps != [] {
      RunKeepsInv(steps[..|steps| - 1]);
      StepKeepsInv(Exec(START, steps[..|steps| - 1]), steps[|steps| - 1]);
    }
  }

  /** In every interleaving a slot is granted to at most one request and charged at most once, ever. */
  lemma GrantedAndChargedOnce(steps: seq<Step>, slot: Slot)
    ensures Charges(Exec(START, steps).log, slot) <= Grants(Exec(START, steps).log, slot) <= 1
  {
    RunKeepsInv(steps);
  }

  lemma ChargeIsCounted(log: seq<Entry>, i: nat, j: nat, slot: Slot)
    requires i < j < |log| && log[i].Charge? && log[i].slot == slot && log[j].Charge? && log[j].slot == slot
    ensures Charges(log, slot) >= 2
  {
    if j == |log| - 1 {
      OneIsCounted(log[..j], i, slot);
    } else {
      ChargeIsCounted(log[..|log| - 1], i, j, slot);
    }
  }

  lemma OneIsCounted(log: seq<Entry>, i: nat, slot: Slot)
    requires i < |log| && log[i].Charge? && log[i].slot == slot
    ensures Charges(log, slot) >= 1
  {
    if i < |log| - 1 {
      OneIsCounted(log[..|log| - 1], i, slot);
    }
  }

  /** A request is refused only after another one was granted the same slot. */
  lemma RefusedOnlyAfterAGrant(steps: seq<Step>, j: nat)
    requires j < |Exec(START, steps).log| && Exec(START, steps).log[j].Refusal?
    ensures var log := Exec(START, steps).log; exists i :: 0 <= i < j && log[i] == Grant(log[j].slot)
  {
    RunKeepsInv(steps);
    assert RefusedFor(Exec(START, steps).log, j);
  }

  /** A record reads success only when its charge went through. */
  lemma SuccessMeansCharged(steps: seq<Step>, i: nat)
    requires i < |Exec(START, steps).rows| && Exec(START, steps).rows[i].status == Success
    ensures Charge(Exec(START, steps).rows[i].slot, true) in Exec(START, steps).log
  {
    RunKeepsInv(steps);
  }

  predicate Charging(s: Sys, c: ClientId, slot: Slot) {
    ClientOf(s, c).Granted? && ClientOf(s, c).slot == slot
  }

  lemma StepGrantsNoMore(s: Sys, step: Step, slot: Slot)
    requires Inv(s) && Find(s.rows, slot).Some? && forall c :: !Charging(s, c, slot)
    ensures var t := Apply(s, step);
            && Find(t.rows, slot).Some? && (forall c :: !Charging(t, c, slot))
            && Grants(t.log, slot) == Grants(s.log, slot) && Charges(t.log, slot) == Charges(s.log, slot)
  {
    ClientsAfter(s, step);
    CountsAfter(s, step, slot);
    StepKeepsGrants(s, step);
    assert !Charging(s, step.c, slot);
    forall c: ClientId ensures !Charging(Apply(s, step), c, slot) {
      assert !Charging(s, c, slot);
    }
  }

  /**
   A row whose request has charged, failed or gone away before charging is never charged again:
   from any reachable state on, whatever follows, there is no further grant and no further charge
   of the slot, and a new request for it is refused at its lookup. Nothing ever frees a slot.
   */
  lemma {:induction false} TakenSlotIsRefusedForever(steps: seq<Step>, more: seq<Step>, slot: Slot, c: ClientId)
    requires var s := Exec(START, steps); Find(s.rows, slot).Some? && forall d :: !Charging(s, d, slot)
    ensures var s, t := Exec(START, steps), Exec(START, steps + more);
            && Find(t.rows, slot).Some? && (forall d :: !Charging(t, d, slot))
            && Grants(t.log, slot) == Grants(s.log, slot) && Charges(t.log, slot) == Charges(s.log, slot)
            && (ClientOf(t, c).Idle? ==> Apply(t, Look(c, slot)) == Logged(t, Refusal(slot)))
  {
    if more == [] {
      assert steps + more == steps;
    } else {
      var front := more[..|more| - 1];
      TakenSlotIsRefusedForever(steps, front, slot, c);
      assert (steps + more)[..|steps + more| - 1] == steps + front;
      RunKeepsInv(steps + front);
      StepGrantsNoMore(Exec(START, steps + front), more[|more| - 1], slot);
    }
  }

  lemma ExecFour(s: Sys, a: Step, b: Step, c: Step, d: Step)
    ensures Exec(s, [a, b, c, d]) == Apply(Apply(Apply(Apply(s, a), b), c), d)
    ensures Exec(s, [d]) == Apply(s, d)
  {
    var run := [a, b, c, d];
    assert run[..3] == [a, b, c] && run[..3][..2] == [a, b] && run[..3][..2][..1] == [a] && run[..3][..2][..1][..0] == [];
    assert Exec(s, run[..3][..2][..1]) == Apply(s, a);
    assert Exec(s, run[..3][..2]) == Apply(Apply(s, a), b);
    assert Exec(s, run[..3]) == Apply(Apply(Apply(s, a), b), c);
    assert [d][..0] == [];
  }

  function AnotherCharge(slot: Slot): seq<Step> {
    [Abandon(0), Look(0, slot), Insert(0), RequestCharge(0, true)]
  }

  lemma FreeSlotCanBeCharged(s: Sys, slot: Slot)
    requires Find(s.rows, slot).None?
    ensures Charges(Exec(s, AnotherCharge(slot)).log, slot) == Charges(s.log, slot) + 1
  {
    ExecFour(s, Abandon(0), Look(0, slot), Insert(0), RequestCharge(0, true));
    var looked := Apply(Apply(s, Abandon(0)), Look(0, slot));
    assert ClientOf(looked, 0) == Looked(slot) && looked.log == s.log && looked.rows == s.rows;
    var granted := Apply(looked, Insert(0));
    assert Charging(granted, 0, slot);
    CountsAfter(looked, Insert(0), slot);
    CountsAfter(granted, RequestCharge(0, true), slot);
  }

  /** Exactly when a slot can still be charged: it has no row, or a request that was granted it has yet to charge. */
  lemma {:induction false} ChargeableExactlyWhen(steps: seq<Step>, slot: Slot)
    ensures var s := Exec(START, steps);
            (exists more :: Charges(Exec(START, steps + more).log, slot) > Charges(s.log, slot))
            <==> Find(s.rows, slot).None? || exists c :: Charging(s, c, slot)
  {
    var s := Exec(START, steps);
    if Find(s.rows, slot).None? {
      FreeSlotCanBeCharged(s, slot);
      ExecSplits(START, steps, AnotherCharge(slot));
    } else if c :| Charging(s, c, slot) {
      ExecFour(s, Abandon(c), Abandon(c), Abandon(c), RequestCharge(c, true));
      CountsAfter(s, RequestCharge(c, true), slot);
      ExecSplits(START, steps, [RequestCharge(c, true)]);
      assert Charges(Exec(START, steps + [RequestCharge(c, true)]).log, slot) > Charges(s.log, slot);
    } else {
      forall more ensures Charges(Exec(START, steps + more).log, slot) == Charges(s.log, slot) {
        TakenSlotIsRefusedForever(steps, more, slot, 0);
      }
    }
  }

  lemma ExecSplits(s: Sys, first: seq<Step>, second: seq<Step>)
    ensures Exec(s, first + second) == Exec(Exec(s, first), second)
  {
    if second == [] {
      assert first + second == first;
    } else {
      ExecSplits(s, first, second[..|second| - 1]);
      assert (first + second)[..|first + second| - 1] == first + second[..|second| - 1];
    }
  }

  /** Look then Insert, with nothing in between, is what Begin does. */
  lemma BeginIsTwoSteps(s: Sys, c: ClientId, slot: Slot)
    requires Inv(s) && ClientOf(s, c).Idle?
    ensures var t := Exec(s, [Look(c, slot), Insert(c)]);
            && t.rows == Claimed(s.rows, slot)
            && (ClientOf(t, c).Granted? <==> Find(s.rows, slot).None?)
            && (ClientOf(t, c).Granted? ==> Find(t.rows, slot) == Some(ClientOf(t, c).id))
  {
    var steps := [Look(c, slot), Insert(c)];
    assert steps[..1] == [Look(c, slot)] && steps[..1][..0] == [];
    assert Exec(s, steps[..1]) == Apply(Exec(s, steps[..1][..0]), Look(c, slot));
  }
}

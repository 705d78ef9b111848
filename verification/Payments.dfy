/**
 The payment ledger. A refund is a negative row that names the payment it refunds; rows are never
 changed or removed. A payment's id is its position in the ledger. The program computes with the
 amounts it is given, taken as real numbers; the table stores them rounded to the cent.
 */
module Payments {
  import opened Wrappers
  import opened Strings
  import opened Entitlements
  import opened Subscriptions

  /** A payment as the program hands it to the store. */
  datatype Draft = Draft(user: UserId, priceId: PriceId, processor: Processor, transactionId: string, amount: real,
                         refundOf: Option<nat>)

  /** A row of the ledger. */
  datatype Payment = Payment(user: UserId, priceId: PriceId, processor: Processor, transactionId: string, cents: int,
                             refundOf: Option<nat>)

  type Log = seq<Payment>

  /** The column has two decimals and rounds half away from zero; eight digits fit before the point. */
  const COLUMN_LIMIT := 10_000_000_000

  function Cents(amount: real): int {
    if amount >= 0.0 then (amount * 100.0 + 0.5).Floor else -(-amount * 100.0 + 0.5).Floor
  }

  function InUnits(cents: int): real {
    cents as real / 100.0
  }

  predicate FitsColumn(amount: real) {
    -COLUMN_LIMIT < Cents(amount) < COLUMN_LIMIT
  }

  function Stored(d: Draft): Payment {
    Payment(d.user, d.priceId, d.processor, d.transactionId, Cents(d.amount), d.refundOf)
  }

  const REFUND_EPSILON := 0.0001

  /** Some row has this processor and transaction id. */
  predicate Recorded(log: Log, processor: Processor, transactionId: string) {
    exists i :: 0 <= i < |log| && log[i].processor == processor && log[i].transactionId == transactionId
  }

  /** The ledger after an insert; the unique (processor, transaction id) refuses a second row. */
  function Created(log: Log, d: Draft): Option<Log> {
    if Recorded(log, d.processor, d.transactionId) || !FitsColumn(d.amount) then None else Some(log + [Stored(d)])
  }

  /** The sum in cents over the rows that refund a payment. */
  function RefundSum(log: Log, id: nat): int {
    if log == [] then 0 else
    RefundSum(log[..|log| - 1], id) + if log[|log| - 1].refundOf == Some(id) then log[|log| - 1].cents else 0
  }

  function Abs(x: int): nat {
    if x < 0 then -x else x
  }

  function RefundTotal(log: Log, id: nat): real {
    InUnits(Abs(RefundSum(log, id)))
  }

  function RefundDraft(log: Log, id: nat, transactionId: string, amount: real): Draft
    requires id < |log|
  {
    Draft(log[id].user, log[id].priceId, log[id].processor, transactionId, -amount, Some(id))
  }

  /** The amount asked for fits into the payment, alone and together with the refunds made so far. */
  predicate WithinAmount(cents: int, sum: int, amount: real) {
    && amount <= InUnits(cents)
    && !(InUnits(Abs(sum)) > 0.0 && amount + InUnits(Abs(sum)) - InUnits(cents) > REFUND_EPSILON)
  }

  /** The checks of a refund, in order, and the insert. */
  function Refunded(log: Log, id: nat, transactionId: string, amount: real): Option<Log> {
    if id >= |log| then None
    else if amount <= 0.0 then None
    else if TrimSpace(transactionId) == "" then None
    else if !WithinAmount(log[id].cents, RefundSum(log, id), amount) then None
    else Created(log, RefundDraft(log, id, transactionId, amount))
  }

  class PaymentService {
    var log: Log

    constructor ()
      ensures log == []
    {
      log := [];
    }

    /** A row with this processor and transaction id, none exactly when there is none. */
    method GetByTransactionID(processor: Processor, transactionId: string) returns (found: Option<Payment>)
      ensures found.None? <==> forall i :: 0 <= i < |log| ==> log[i].processor != processor || log[i].transactionId != transactionId
      ensures found.Some? ==> found.value in log && found.value.processor == processor && found.value.transactionId == transactionId
    {
      for k := 0 to |log|
        invariant forall i :: 0 <= i < k ==> log[i].processor != processor || log[i].transactionId != transactionId
      {
        if log[k].processor == processor && log[k].transactionId == transactionId {
          return Some(log[k]);
        }
      }
      found := None;
    }

    method GetRefundTotalByPaymentID(id: nat) returns (total: real)
      ensures total == RefundTotal(log, id)
    {
      var sum := 0;
      for k := 0 to |log|
        invariant sum == RefundSum(log[..k], id)
      {
        assert log[..k + 1][..k] == log[..k];
        if log[k].refundOf == Some(id) {
          sum := sum + log[k].cents;
        }
      }
      assert log[..|log|] == log;
      total := InUnits(Abs(sum));
    }

    method Create(d: Draft) returns (ok: bool)
      modifies this
      ensures ok <==> Created(old(log), d).Some?
      ensures log == if ok then Created(old(log), d).value else old(log)
      ensures ok <==> FitsColumn(d.amount)
                      && forall i :: 0 <= i < |old(log)| ==> old(log)[i].processor != d.processor || old(log)[i].transactionId != d.transactionId
      ensures ok ==> log == old(log) + [Payment(d.user, d.priceId, d.processor, d.transactionId, Cents(d.amount), d.refundOf)]
    {
      var cents := Cents(d.amount);
      ok := !Recorded(log, d.processor, d.transactionId) && -COLUMN_LIMIT < cents < COLUMN_LIMIT;
      if ok {
        log := log + [Payment(d.user, d.priceId, d.processor, d.transactionId, cents, d.refundOf)];
      }
    }

    /** Payments are immutable. */
    method Update(id: nat, d: Draft) returns (ok: bool)
      ensures !ok
    {
      ok := false;
    }

    method Delete(id: nat) returns (ok: bool)
      ensures !ok
    {
      ok := false;
    }

    method Refund(id: nat, transactionId: string, amount: real) returns (ok: bool)
      modifies this
      ensures ok <==> Refunded(old(log), id, transactionId, amount).Some?
      ensures log == if ok then Refunded(old(log), id, transactionId, amount).value else old(log)
      ensures ok ==> id < |old(log)| && var p := old(log)[id];
                     log == old(log) + [Payment(p.user, p.priceId, p.processor, transactionId, Cents(-amount), Some(id))]
    {
      if id >= |log| {
        return false;
      }
      var original := log[id];
      if amount <= 0.0 || TrimSpace(transactionId) == "" {
        return false;
      }
      var total := GetRefundTotalByPaymentID(id);
      if amount > InUnits(original.cents) {
        return false;
      }
      if total > 0.0 && amount + total - InUnits(original.cents) > REFUND_EPSILON {
        return false;
      }
      ok := Create(Draft(original.user, original.priceId, original.processor, transactionId, -amount, Some(id)));
    }
  }

  // ---- rounding

  /** A positive amount that is at most 0.0001 above a number of cents is stored as no more than that. */
  lemma CentsAreAtMost(amount: real, cents: int)
    requires amount > 0.0 && amount <= InUnits(cents) + REFUND_EPSILON
    ensures 0 <= Cents(amount) <= cents && Cents(-amount) == -Cents(amount)
  {
    var shifted := amount * 100.0 + 0.5;
    assert shifted <= cents as real + 0.51;
    assert shifted.Floor as real <= shifted;
  }

  /** What is stored is within half a cent of the amount, and whole cents are stored as they are. */
  lemma CentsAreNearest(amount: real, cents: int)
    ensures -0.5 <= Cents(amount) as real - amount * 100.0 <= 0.5
    ensures amount == InUnits(cents) ==> Cents(amount) == cents
  {
    var shifted := (if amount >= 0.0 then amount else -amount) * 100.0 + 0.5;
    assert shifted.Floor as real <= shifted < shifted.Floor as real + 1.0;
  }

  // ---- runs

  datatype Call =
    | Create(d: Draft)
    | Refund(id: nat, transactionId: string, amount: real)
    | Update(id: nat, d: Draft)
    | Delete(id: nat)

  /** Only a refund makes a row that refunds another. */
  function Apply(log: Log, call: Call): Log {
    var after := match call
      case Create(d) => Created(log, d.(refundOf := None))
      case Refund(id, transactionId, amount) => Refunded(log, id, transactionId, amount)
      case _ => None;
    if after.Some? then after.value else log
  }

  function Exec(calls: seq<Call>): Log {
    if calls == [] then [] else Apply(Exec(calls[..|calls| - 1]), calls[|calls| - 1])
  }

  /** Row i is no refund, or refunds an earlier positive payment that is no refund itself. */
  predicate RowIsSound(log: Log, i: nat)
    requires i < |log|
  {
    && -COLUMN_LIMIT < log[i].cents < COLUMN_LIMIT
    && match log[i].refundOf
       case None => true
       case Some(id) => id < i && log[id].refundOf.None? && log[id].cents > 0 && 0 <= -log[i].cents <= log[id].cents
  }

  ghost predicate Inv(log: Log) {
    && (forall i :: 0 <= i < |log| ==> RowIsSound(log, i))
    && (forall id: nat :: RefundSum(log, id) <= 0)
    && (forall id: nat :: id < |log| ==> -RefundSum(log, id) <= Limit(log[id]))
    && (forall id: nat :: id >= |log| ==> RefundSum(log, id) == 0)
  }

  /** What can be refunded of a payment at most, in cents. */
  function Limit(p: Payment): nat {
    if p.cents > 0 && p.refundOf.None? then p.cents else 0
  }

  lemma SumGrows(log: Log, p: Payment, id: nat)
    ensures RefundSum(log + [p], id) == RefundSum(log, id) + if p.refundOf == Some(id) then p.cents else 0
  {
    assert (log + [p])[..|log|] == log;
  }

  /** A row may be appended that is no refund, or refunds a payment within its limit. */
  predicate MayAppend(log: Log, p: Payment) {
    && -COLUMN_LIMIT < p.cents < COLUMN_LIMIT
    && (p.refundOf.Some? ==> RefundsWithin(log, p, p.refundOf.value))
  }

  predicate RefundsWithin(log: Log, p: Payment, id: nat) {
    && id < |log| && log[id].refundOf.None? && 0 < log[id].cents && 0 <= -p.cents
    && -p.cents - RefundSum(log, id) <= log[id].cents
  }

  lemma AppendKeepsInv(log: Log, p: Payment)
    requires Inv(log) && MayAppend(log, p)
    ensures Inv(log + [p])
  {
    var after := log + [p];
    forall i | 0 <= i < |after| ensures RowIsSound(after, i) {
      if i < |log| {
        assert RowIsSound(log, i);
      }
    }
    forall id: nat ensures RefundSum(after, id) == RefundSum(log, id) + if p.refundOf == Some(id) then p.cents else 0 {
      SumGrows(log, p, id);
    }
  }

  lemma RefundMayAppend(log: Log, id: nat, transactionId: string, amount: real)
    requires Inv(log) && Refunded(log, id, transactionId, amount).Some?
    ensures MayAppend(log, Stored(RefundDraft(log, id, transactionId, amount)))
  {
    assert RowIsSound(log, id);
    CentsAreAtMost(amount, log[id].cents + RefundSum(log, id));
  }

  lemma StepKeepsInv(log: Log, call: Call)
    requires Inv(log)
    ensures Inv(Apply(log, call))
  {
    match call
    case Create(d) =>
      if FitsColumn(d.amount) {
        AppendKeepsInv(log, Stored(d.(refundOf := None)));
      }
    case Refund(id, transactionId, amount) =>
      if Refunded(log, id, transactionId, amount).Some? {
        RefundMayAppend(log, id, transactionId, amount);
        AppendKeepsInv(log, Stored(RefundDraft(log, id, transactionId, amount)));
      }
    case _ =>
  }

  lemma {:induction false} RunKeepsInv(calls: seq<Call>)
    ensures Inv(Exec(calls))
  {
    if calls != [] {
      RunKeepsInv(calls[..|calls| - 1]);
      StepKeepsInv(Exec(calls[..|calls| - 1]), calls[|calls| - 1]);
    }
  }

  /** The ledger is append-only: what a run has written stays as it was written, whatever is updated or deleted. */
  lemma {:induction false} AppendOnly(calls: seq<Call>, k: nat)
    requires k <= |calls|
    ensures Exec(calls[..k]) <= Exec(calls)
  {
    if k < |calls| {
      var front := calls[..|calls| - 1];
      AppendOnly(front, k);
      assert front[..k] == calls[..k];
    } else {
      assert calls[..k] == calls;
    }
  }

  /** Only positive payments are refunded, never a refund, and each refund is no more than its payment. */
  lemma OnlyPaymentsAreRefunded(calls: seq<Call>, i: nat)
    requires i < |Exec(calls)| && Exec(calls)[i].refundOf.Some?
    ensures var log := Exec(calls); var id := log[i].refundOf.value;
            id < i && log[id].refundOf.None? && log[id].cents > 0 && 0 <= -log[i].cents <= log[id].cents
  {
    RunKeepsInv(calls);
    assert RowIsSound(Exec(calls), i);
  }

  /**
   However many refunds are made, their total in the ledger never exceeds the amount of the payment:
   the tolerance of the check is less than a cent, and what it lets through is rounded off.
   */
  lemma RefundsAreBounded(calls: seq<Call>, id: nat)
    requires id < |Exec(calls)|
    ensures var log := Exec(calls);
            && RefundTotal(log, id) == InUnits(-RefundSum(log, id))
            && (log[id].cents > 0 && log[id].refundOf.None? ==> RefundTotal(log, id) <= InUnits(log[id].cents))
            && (log[id].cents <= 0 || log[id].refundOf.Some? ==> RefundTotal(log, id) == 0.0)
  {
    RunKeepsInv(calls);
    TotalIsBounded(RefundSum(Exec(calls), id), Exec(calls)[id].cents, Limit(Exec(calls)[id]));
  }

  lemma TotalIsBounded(sum: int, cents: int, limit: nat)
    requires sum <= 0 && -sum <= limit && (limit == cents || limit == 0)
    ensures InUnits(Abs(sum)) == InUnits(-sum)
    ensures limit == cents ==> InUnits(Abs(sum)) <= InUnits(cents)
    ensures limit == 0 ==> InUnits(Abs(sum)) == 0.0
  {
  }

  /** The check on the total, in terms of what is left. */
  lemma RestIsWhatIsLeft(cents: int, sum: int, amount: real)
    requires sum <= 0
    ensures WithinAmount(cents, sum, amount) <==> amount <= InUnits(cents) && amount <= InUnits(cents + sum) + REFUND_EPSILON
  {
    assert InUnits(cents + sum) == InUnits(cents) - InUnits(Abs(sum));
  }

  /** The request is positive, fits into the payment and into what is left of it, and is new. */
  predicate Acceptable(log: Log, id: nat, transactionId: string, amount: real) {
    && id < |log| && 0.0 < amount <= InUnits(log[id].cents)
    && amount <= InUnits(log[id].cents + RefundSum(log, id)) + REFUND_EPSILON
    && TrimSpace(transactionId) != "" && !Recorded(log, log[id].processor, transactionId) && FitsColumn(-amount)
  }

  /** When a refund is accepted, exactly, in any state a run can reach. */
  lemma {:induction false} RefundIsAcceptedWhen(calls: seq<Call>, id: nat, transactionId: string, amount: real)
    ensures Refunded(Exec(calls), id, transactionId, amount).Some? <==> Acceptable(Exec(calls), id, transactionId, amount)
  {
    RunKeepsInv(calls);
    AcceptedWhen(Exec(calls), id, transactionId, amount);
  }

  lemma AcceptedWhen(log: Log, id: nat, transactionId: string, amount: real)
    requires RefundSum(log, id) <= 0
    ensures Refunded(log, id, transactionId, amount).Some? <==> Acceptable(log, id, transactionId, amount)
  {
    if id < |log| {
      RestIsWhatIsLeft(log[id].cents, RefundSum(log, id), amount);
    }
  }

  /** What is left of a payment can be refunded at one stroke, and then the total is exactly its amount. */
  lemma {:induction false} RestCanBeRefunded(calls: seq<Call>, id: nat, transactionId: string)
    requires id < |Exec(calls)| && TrimSpace(transactionId) != "" && !Recorded(Exec(calls), Exec(calls)[id].processor, transactionId)
    requires 0 < Exec(calls)[id].cents + RefundSum(Exec(calls), id) && Exec(calls)[id].refundOf.None?
    ensures var log := Exec(calls); var rest := InUnits(log[id].cents + RefundSum(log, id));
            var after := Apply(log, Refund(id, transactionId, rest));
            |after| == |log| + 1 && after[id] == log[id] && RefundTotal(after, id) == InUnits(log[id].cents)
  {
    RunKeepsInv(calls);
    RestIsAccepted(Exec(calls), id, transactionId, Exec(calls)[id].cents + RefundSum(Exec(calls), id));
  }

  lemma RestIsAccepted(log: Log, id: nat, transactionId: string, rest: nat)
    requires Inv(log) && id < |log| && TrimSpace(transactionId) != "" && !Recorded(log, log[id].processor, transactionId)
    requires 0 < rest == log[id].cents + RefundSum(log, id) && log[id].refundOf.None?
    ensures var after := Apply(log, Refund(id, transactionId, InUnits(rest)));
            |after| == |log| + 1 && after[id] == log[id] && RefundTotal(after, id) == InUnits(log[id].cents)
  {
    assert RowIsSound(log, id);
    CentsAreNearest(InUnits(rest), rest);
    CentsAreAtMost(InUnits(rest), rest);
    AcceptedWhen(log, id, transactionId, InUnits(rest));
    SumGrows(log, Stored(RefundDraft(log, id, transactionId, InUnits(rest))), id);
  }
}

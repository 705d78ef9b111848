/** Subscribing through NMI: the idempotency key, the charge it guards, and what that means over all runs. */
module Subscribe {
  import opened Wrappers
  import opened Strings
  import opened Idempotency
  import opened IdempotencyRuns

  const OPERATION := "nmi_subscription"

  /** A price id is printed as a UUID. */
  type PriceId = p: string | FreeOf(p, ':')

  datatype Request = Request(user: string, price: PriceId, token: string, paymentMethod: string)

  predicate IsHex(c: char) {
    '0' <= c <= '9' || 'a' <= c <= 'f' || 'A' <= c <= 'F'
  }

  /** The first 36 characters are eight, four, four, four and twelve hexadecimal digits with dashes between. */
  predicate IsDashed(s: string) {
    |s| >= 36 && forall i :: 0 <= i < 36 ==> if i in {8, 13, 18, 23} then s[i] == '-' else IsHex(s[i])
  }

  /** What the UUID parser takes: plain, as a URN, between any two characters, or without dashes. */
  predicate ParsesAsUuid(s: string) {
    if |s| == 36 then IsDashed(s)
    else if |s| == 45 then ToLower(s[..9]) == "urn:uuid:" && IsDashed(s[9..])
    else if |s| == 38 then IsDashed(s[1..])
    else |s| == 32 && forall i :: 0 <= i < 32 ==> IsHex(s[i])
  }

  /** A saved payment method is optional; one that is given must parse. */
  predicate MethodParses(paymentMethod: string) {
    TrimSpace(paymentMethod) == "" || ParsesAsUuid(TrimSpace(paymentMethod))
  }

  /** A request that gets as far as its key; user ids are UUIDs too, what matters is that they have no ':'. */
  predicate Accepted(r: Request) {
    MethodParses(r.paymentMethod) && FreeOf(TrimSpace(r.user), ':')
  }

  function OrNone(s: string): string {
    if TrimSpace(s) == "" then "none" else TrimSpace(s)
  }

  function BuildKey(r: Request): string {
    Format("user:", TrimSpace(r.user), ":price:", r.price, ":token:", OrNone(r.token), ":method:", OrNone(r.paymentMethod))
  }

  function Format(a: string, user: string, b: string, price: string, c: string, token: string, d: string, paymentMethod: string): string {
    a + user + b + price + c + token + d + paymentMethod
  }

  /** What makes two requests the same purchase. */
  datatype Purchase = Purchase(user: string, price: PriceId, token: string, paymentMethod: string)

  function PurchaseOf(r: Request): Purchase {
    Purchase(TrimSpace(r.user), r.price, OrNone(r.token), OrNone(r.paymentMethod))
  }

  function SlotOf(r: Request): Slot {
    Slot(OPERATION, BuildKey(r))
  }

  lemma FormatEnds(a: string, user: string, b: string, price: string, c: string, token: string, d: string, paymentMethod: string)
    requires a != "" && paymentMethod != ""
    ensures var key := Format(a, user, b, price, c, token, d, paymentMethod);
            && key != "" && key[0] == a[0] && key[|key| - 1] == paymentMethod[|paymentMethod| - 1]
  {
    var front := a + user + b + price + c + token + d;
    assert front[0] == a[0];
    assert (front + paymentMethod)[|front + paymentMethod| - 1] == paymentMethod[|paymentMethod| - 1];
  }

  lemma OrNoneIsTrimmed(s: string)
    ensures OrNone(s) != "" && IsTrimmed(OrNone(s))
  {
    TrimSpaceIsTrimmed(s);
  }

  /** Trimming leaves the key alone, so this is the slot that Begin claims. */
  lemma SlotIsClean(r: Request)
    ensures CleanSlot(OPERATION, BuildKey(r)) == Some(SlotOf(r))
  {
    KeyIsClean(r);
    OperationIsClean();
    CleanSlotStays(OPERATION, BuildKey(r));
  }

  lemma CleanSlotStays(operation: string, key: string)
    requires TrimSpace(operation) == operation != "" && TrimSpace(key) == key != ""
    ensures CleanSlot(operation, key) == Some(Slot(operation, key))
  {
  }

  lemma OperationIsClean()
    ensures TrimSpace(OPERATION) == OPERATION != ""
  {
    assert OPERATION[0] == 'n' && OPERATION[|OPERATION| - 1] == 'n';
    TrimmedStays(OPERATION);
  }

  lemma KeyIsClean(r: Request)
    ensures TrimSpace(BuildKey(r)) == BuildKey(r) != ""
  {
    OrNoneIsTrimmed(r.paymentMethod);
    FormatIsClean("user:", TrimSpace(r.user), ":price:", r.price, ":token:", OrNone(r.token), ":method:", OrNone(r.paymentMethod));
  }

  lemma FormatIsClean(a: string, user: string, b: string, price: string, c: string, token: string, d: string, paymentMethod: string)
    requires a != "" && a[0] == 'u' && paymentMethod != "" && IsTrimmed(paymentMethod)
    ensures var key := Format(a, user, b, price, c, token, d, paymentMethod); TrimSpace(key) == key != ""
  {
    FormatEnds(a, user, b, price, c, token, d, paymentMethod);
    TrimmedStays(Format(a, user, b, price, c, token, d, paymentMethod));
  }

  /** The key from the token on. */
  function Tail(d: string, token: string, paymentMethod: string): string {
    token + d + paymentMethod
  }

  lemma FormatFields(a: string, user: string, b: string, b': string, price: string, c: string, c': string, token: string,
                     d: string, paymentMethod: string)
    requires b == [':'] + b' && c == [':'] + c'
    ensures Format(a, user, b, price, c, token, d, paymentMethod)
         == a + (user + [':'] + (b' + (price + [':'] + (c' + Tail(d, token, paymentMethod)))))
  {
    var tail := Tail(d, token, paymentMethod);
    var key := Format(a, user, b, price, c, token, d, paymentMethod);
    assert key == a + user + b + price + c + tail;
    assert key == a + user + b + (price + [':'] + (c' + tail));
  }

  lemma Separators()
    ensures ":price:" == [':'] + "price:"
    ensures ":token:" == [':'] + "token:"
  {
  }

  lemma KeyFields(r: Request)
    ensures BuildKey(r) == "user:" + (TrimSpace(r.user) + [':'] + ("price:" + (r.price + [':'] + ("token:" + Tail(":method:", OrNone(r.token), OrNone(r.paymentMethod))))))
  {
    Separators();
    FormatFields("user:", TrimSpace(r.user), ":price:", "price:", r.price, ":token:", "token:", OrNone(r.token),
                 ":method:", OrNone(r.paymentMethod));
  }

  /** There is an 'h' at most at either end. */
  predicate NoInnerH(s: string) {
    forall i :: 0 < i < |s| - 1 ==> s[i] != 'h'
  }

  lemma UuidsHaveNoInnerH(s: string)
    requires ParsesAsUuid(s)
    ensures NoInnerH(s)
  {
    if |s| == 45 {
      forall i | 0 < i < |s| - 1 ensures s[i] != 'h' {
        if i < 9 {
          assert ToLower(s[..9])[i] == LowerChar(s[i]);
          assert "urn:uuid:"[i] != 'h';
        } else {
          assert s[i] == s[9..][i - 9];
        }
      }
    } else if |s| == 38 {
      forall i | 0 < i < |s| - 1 ensures s[i] != 'h' {
        assert s[i] == s[1..][i - 1];
      }
    }
  }

  lemma MethodsHaveNoInnerH(paymentMethod: string)
    requires MethodParses(paymentMethod)
    ensures NoInnerH(OrNone(paymentMethod))
  {
    TextHasNoInnerH(TrimSpace(paymentMethod), OrNone(paymentMethod));
  }

  lemma TextHasNoInnerH(trimmed: string, text: string)
    requires trimmed == "" || ParsesAsUuid(trimmed)
    requires text == if trimmed == "" then "none" else trimmed
    ensures NoInnerH(text)
  {
    if trimmed != "" {
      UuidsHaveNoInnerH(trimmed);
    }
  }

  /** The separator: between its colons there is none, but there is an 'h'. */
  predicate IsSeparator(d: string) {
    |d| == 8 && d[0] == ':' && d[4] == 'h' && forall i :: 1 <= i <= 6 ==> d[i] != ':'
  }

  lemma MethodIsSeparator()
    ensures IsSeparator(":method:")
  {
  }

  /** After a separator, a text without an inner 'h' holds no other one, nor does one overlap the two. */
  lemma SeparatorIsAtStart(whole: string, d: string, m: string, n: nat)
    requires IsSeparator(d) && NoInnerH(m) && whole == d + m
    requires n + 8 <= |whole| && whole[n] == ':' && whole[n + 4] == 'h'
    ensures n == 0
  {
    assert forall k :: 0 <= k < 8 ==> whole[k] == d[k];
    assert forall k :: 8 <= k < |whole| ==> whole[k] == m[k - 8];
  }

  lemma SplitsAlike(t1: string, m1: string, t2: string, m2: string, d: string)
    requires IsSeparator(d) && NoInnerH(m1) && t1 + d + m1 == t2 + d + m2
    ensures |t1| >= |t2|
  {
    if |t1| <= |t2| {
      var rest, shift := d + m1, |t2| - |t1|;
      assert rest == (t1 + d + m1)[|t1|..];
      assert rest[shift] == (t2 + d + m2)[|t2|] && rest[shift + 4] == (t2 + d + m2)[|t2| + 4];
      SeparatorIsAtStart(rest, d, m1, shift);
    }
  }

  lemma TailsAgree(t1: string, m1: string, t2: string, m2: string, d: string)
    requires IsSeparator(d) && NoInnerH(m1) && NoInnerH(m2) && t1 + d + m1 == t2 + d + m2
    ensures t1 == t2 && m1 == m2
  {
    SplitsAlike(t1, m1, t2, m2, d);
    SplitsAlike(t2, m2, t1, m1, d);
    assert t1 == (t1 + d + m1)[..|t1|] && t2 == (t2 + d + m2)[..|t2|];
    assert m1 == (t1 + d + m1)[|t1| + 8..] && m2 == (t2 + d + m2)[|t2| + 8..];
  }

  lemma SuffixesAgree(prefix: string, a: string, b: string)
    requires prefix + a == prefix + b
    ensures a == b
  {
    assert a == (prefix + a)[|prefix|..];
    assert b == (prefix + b)[|prefix|..];
  }

  /** Two requests that get as far as their keys have the same one exactly when they are the same purchase, whatever their tokens. */
  lemma SameKeyIffSamePurchase(r: Request, q: Request)
    requires Accepted(r) && Accepted(q)
    ensures SlotOf(r) == SlotOf(q) <==> PurchaseOf(r) == PurchaseOf(q)
  {
    if SlotOf(r) == SlotOf(q) {
      KeyFields(r);
      KeyFields(q);
      var tail, tail' := Tail(":method:", OrNone(r.token), OrNone(r.paymentMethod)), Tail(":method:", OrNone(q.token), OrNone(q.paymentMethod));
      var afterUser, afterUser' := "price:" + (r.price + [':'] + ("token:" + tail)), "price:" + (q.price + [':'] + ("token:" + tail'));
      SuffixesAgree("user:", TrimSpace(r.user) + [':'] + afterUser, TrimSpace(q.user) + [':'] + afterUser');
      FirstFieldIsUnique(TrimSpace(r.user), afterUser, TrimSpace(q.user), afterUser', ':');
      SuffixesAgree("price:", r.price + [':'] + ("token:" + tail), q.price + [':'] + ("token:" + tail'));
      FirstFieldIsUnique(r.price, "token:" + tail, q.price, "token:" + tail', ':');
      SuffixesAgree("token:", tail, tail');
      MethodsHaveNoInnerH(r.paymentMethod);
      MethodsHaveNoInnerH(q.paymentMethod);
      MethodIsSeparator();
      TailsAgree(OrNone(r.token), OrNone(r.paymentMethod), OrNone(q.token), OrNone(q.paymentMethod), ":method:");
    }
  }

  // ---- the charges

  /** The table after a charge: the new row, last, says how it went. */
  function Settled(rows: Table, slot: Slot, charge: Result<string, string>, payload: Result<string, string>): Table {
    rows + [if charge.Err? then Record(slot, Status.Failed, Some(charge.error))
            else if payload.Err? then Record(slot, Status.Failed, Some(payload.error))
            else Record(slot, Status.Success, Some(payload.value))]
  }

  lemma NewRowIsLast(rows: Table, slot: Slot)
    requires Find(rows, slot).None?
    ensures Find(rows + [NewRecord(slot)], slot) == Some(|rows|)
  {
  }

  /** The vault id to charge, blank when one has to be made from the token; none when the request is refused before its key. */
  function VaultFor(paymentMethod: string, token: string, saved: Result<string, string>): Option<string> {
    if paymentMethod == "" then
      if token == "" then None else Some("")
    else if !ParsesAsUuid(paymentMethod) || saved.Err? || (saved.value == "" && token == "") then None
    else Some(saved.value)
  }

  /** Neither method nor token, a method that does not parse or is not found, or one without a vault id and no token to make one. */
  predicate IsRefused(paymentMethod: string, token: string, saved: Result<string, string>) {
    || (paymentMethod == "" && token == "")
    || (paymentMethod != "" && !ParsesAsUuid(paymentMethod))
    || (paymentMethod != "" && saved.Err?)
    || (paymentMethod != "" && saved == Ok("") && token == "")
  }

  /** There is a vault id to go on with exactly for requests that are not refused: the saved one, or a blank one without a saved method. */
  lemma VaultUnlessRefused(paymentMethod: string, token: string, saved: Result<string, string>)
    ensures var vault := VaultFor(paymentMethod, token, saved);
            && (vault.None? <==> IsRefused(paymentMethod, token, saved))
            && (vault.Some? ==> vault.value == if paymentMethod != "" then saved.value else "")
  {
  }

  function VaultOf(req: Request, saved: Result<string, string>): Option<string> {
    VaultFor(TrimSpace(req.paymentMethod), TrimSpace(req.token), saved)
  }

  /** Only requests whose method parses get as far as their key. */
  lemma ChargeableMethodsParse(req: Request, saved: Result<string, string>)
    requires VaultOf(req, saved).Some? && FreeOf(TrimSpace(req.user), ':')
    ensures Accepted(req)
  {
  }

  class NMISubscriber {
    const service: IdempotencyService
    /** The recurring charges requested so far. */
    var charges: seq<Slot>

    constructor (service: IdempotencyService)
      ensures this.service == service && charges == []
    {
      this.service := service;
      charges := [];
    }

    /**
     `saved` is what the lookup of a saved payment method gives, its vault id or an error; `payload`
     is the response to store, an error when it cannot be marshalled.
     */
    method Subscribe(req: Request, saved: Result<string, string>, rival: bool, vaultError: Option<string>,
                     charge: Result<string, string>, payload: Result<string, string>) returns (r: Result<string, string>)
      requires DistinctSlots(service.rows)
      modifies this, service
      ensures DistinctSlots(service.rows)
      ensures IsRefused(TrimSpace(req.paymentMethod), TrimSpace(req.token), saved) ==>
                r.Err? && charges == old(charges) && service.rows == old(service.rows)
      ensures !IsRefused(TrimSpace(req.paymentMethod), TrimSpace(req.token), saved) ==>
                ChargedIffFree(SlotOf(req), old(service.rows), rival,
                               if TrimSpace(req.paymentMethod) == "" || saved == Ok("") then vaultError else None,
                               charge, payload, service.rows, old(charges), charges, r)
      ensures TrimSpace(req.paymentMethod) == TrimSpace(req.token) == "" ==>
                r.Err? && charges == old(charges) && service.rows == old(service.rows)
    {
      VaultUnlessRefused(TrimSpace(req.paymentMethod), TrimSpace(req.token), saved);
      var vault := CheckMethod(TrimSpace(req.paymentMethod), TrimSpace(req.token), saved);
      if vault.Err? {
        return vault;
      }
      SlotIsClean(req);
      r := ChargeOnce(OPERATION, BuildKey(req), SlotOf(req), rival, if vault.value == "" then vaultError else None, charge, payload);
    }

    method CheckMethod(paymentMethod: string, token: string, saved: Result<string, string>) returns (vault: Result<string, string>)
      ensures vault.Ok? <==> VaultFor(paymentMethod, token, saved).Some?
      ensures vault.Ok? ==> vault.value == VaultFor(paymentMethod, token, saved).value
    {
      vault := Ok("");
      if paymentMethod != "" {
        if !ParsesAsUuid(paymentMethod) {
          return Err("invalid payment method ID");
        }
        vault := saved;
      }
      if vault == Ok("") && token == "" {
        return Err("payment token or payment method ID is required");
      }
    }

    method ChargeOnce(operation: string, key: string, ghost slot: Slot, rival: bool, vaultError: Option<string>,
                      charge: Result<string, string>, payload: Result<string, string>) returns (r: Result<string, string>)
      requires DistinctSlots(service.rows) && CleanSlot(operation, key) == Some(slot)
      modifies this, service
      ensures DistinctSlots(service.rows)
      ensures ChargedIffFree(slot, old(service.rows), rival, vaultError, charge, payload, service.rows, old(charges), charges, r)
    {
      var begun := service.Begin(operation, key, rival);
      if begun.value.existed {
        return Err("duplicate subscription request detected");
      }
      if vaultError.Some? {
        return Err(vaultError.value);
      }
      NewRowIsLast(old(service.rows), slot);
      charges := charges + [CleanSlot(operation, key).value];
      Settle(begun.value.id, old(service.rows), slot, charge, payload);
      r := charge;
    }

    /** Failing to update the record is ignored. */
    method Settle(id: nat, ghost rows: Table, ghost slot: Slot, charge: Result<string, string>, payload: Result<string, string>)
      requires id == |rows| && service.rows == rows + [NewRecord(slot)]
      modifies service
      ensures service.rows == Settled(rows, slot, charge, payload)
    {
      if charge.Err? {
        var _ := service.Fail(id, Some(charge.error));
      } else if payload.Err? {
        var _ := service.Fail(id, Some(payload.error));
      } else {
        var _ := service.Complete(id, Some(payload.value));
      }
    }
  }

  /** The charge is made exactly when the slot was free, and a payment method could be vaulted when one was needed. */
  predicate ChargedIffFree(slot: Slot, before: Table, rival: bool, vaultError: Option<string>, charge: Result<string, string>,
                    payload: Result<string, string>, after: Table, chargesBefore: seq<Slot>, charges: seq<Slot>, r: Result<string, string>) {
    if Find(before, slot).None? && !rival && vaultError.None? then
      r == charge && charges == chargesBefore + [slot] && after == Settled(before, slot, charge, payload)
    else
      r.Err? && charges == chargesBefore && after == Claimed(before, slot)
  }

  /**
   A request with a free slot, run to its end with nothing in between, is four steps of the machine:
   it leaves the table that Subscribe leaves. The new row reads success exactly when the charge went
   through and its response could be stored, and it holds the response or what went wrong.
   */
  lemma SubscribeIsFourSteps(s: Sys, c: ClientId, slot: Slot, charge: Result<string, string>, payload: Result<string, string>)
    requires Inv(s) && ClientOf(s, c).Idle? && Find(s.rows, slot).None?
    ensures var result := if charge.Err? then charge.error else if payload.Err? then payload.error else payload.value;
            var t := Exec(s, [Look(c, slot), Insert(c), RequestCharge(c, charge.Ok?), Settle(c, payload.Ok?, Some(result))]);
            && t.rows == Settled(s.rows, slot, charge, payload)
            && t.rows == s.rows + [Record(slot, if charge.Ok? && payload.Ok? then Success else Failed, Some(result))]
            && t.log == s.log + [Grant(slot), Charge(slot, charge.Ok?)]
  {
    var result := if charge.Err? then charge.error else if payload.Err? then payload.error else payload.value;
    ExecFour(s, Look(c, slot), Insert(c), RequestCharge(c, charge.Ok?), Settle(c, payload.Ok?, Some(result)));
    var looked := Apply(s, Look(c, slot));
    var granted := Apply(looked, Insert(c));
    assert ClientOf(granted, c) == Granted(slot, |s.rows|) && granted.rows == s.rows + [NewRecord(slot)];
    var charged := Apply(granted, RequestCharge(c, charge.Ok?));
    assert ClientOf(charged, c) == Charged(slot, |s.rows|, charge.Ok?);
  }

  /** In every interleaving a purchase is charged at most once, however often and by whomever it is requested. */
  lemma PurchaseIsChargedOnce(steps: seq<Step>, r: Request, q: Request, i: nat, j: nat)
    requires PurchaseOf(r) == PurchaseOf(q)
    requires var log := Exec(START, steps).log;
             && i < |log| && j < |log| && log[i].Charge? && log[j].Charge?
             && log[i].slot == SlotOf(r) && log[j].slot == SlotOf(q)
    ensures i == j
  {
    var log := Exec(START, steps).log;
    GrantedAndChargedOnce(steps, SlotOf(r));
    if i < j {
      ChargeIsCounted(log, i, j, SlotOf(r));
    } else if j < i {
      ChargeIsCounted(log, j, i, SlotOf(r));
    }
  }

  /**
   And a purchase is refused only because the same purchase was granted before: no request that got
   as far as its key takes the slot of another purchase.
   */
  lemma RefusedOnlyForTheSamePurchase(steps: seq<Step>, r: Request, j: nat)
    requires Accepted(r) && j < |Exec(START, steps).log| && Exec(START, steps).log[j] == Refusal(SlotOf(r))
    ensures var log := Exec(START, steps).log;
            exists i :: 0 <= i < j && log[i] == Grant(SlotOf(r))
                        && forall q :: Accepted(q) && SlotOf(q) == log[i].slot ==> PurchaseOf(q) == PurchaseOf(r)
  {
    RefusedOnlyAfterAGrant(steps, j);
    forall q | Accepted(q) && SlotOf(q) == SlotOf(r) ensures PurchaseOf(q) == PurchaseOf(r) {
      SameKeyIffSamePurchase(r, q);
    }
  }
}

/**
 Checking a Solana transaction against a payment that is expected. Public keys are their base-58
 texts; which texts are keys, and how token accounts are derived, is given by the environment.
 */
module Solana {
  import opened GoInt
  import opened Wrappers
  import opened Strings

  type Key = string

  datatype Program = System | Token | OtherProgram | Unresolved

  datatype Data = Transfer(amount: Option<nat>) | TransferChecked(amount: Option<nat>) | OtherData | Undecodable

  /** `accounts` are indexes into the account keys of the message. */
  datatype Instruction = Instruction(program: Program, accounts: seq<nat>, data: Data)

  datatype Transaction = Transaction(accountKeys: seq<Key>, instructions: seq<Instruction>)

  datatype TokenBalance = TokenBalance(accountIndex: nat, mint: string, amount: Option<string>)

  datatype Meta = Meta(preBalances: seq<nat>, postBalances: seq<nat>, preTokens: seq<TokenBalance>, postTokens: seq<TokenBalance>,
                       loadedWritable: seq<Key>, loadedReadOnly: seq<Key>)

  datatype Match = Match(program: Program, amount: nat, source: Key, destination: Key, mint: string, accountIndex: nat)

  /** What the payment is expected to be; blank texts mean that anything goes. */
  datatype Expected = Expected(amount: nat, mint: string, payer: string)

  // ---- mints

  const WRAPPED_SOL := "SO11111111111111111111111111111111111111112"

  function NormalizeMint(m: string): string {
    ToUpper(TrimSpace(m))
  }

  predicate IsNativeMint(m: string) {
    NormalizeMint(m) == "" || NormalizeMint(m) == WRAPPED_SOL
  }

  predicate MintMatches(expected: string, actual: string) {
    var e, a := NormalizeMint(expected), NormalizeMint(actual);
    if e == "" || a == "" then e == a
    else (IsNativeMint(e) && IsNativeMint(a)) || e == a
  }

  /** The mint of the first token balance of an account, blank when there is none. */
  function MintOf(tokens: seq<TokenBalance>, accountIndex: nat): string {
    var entry := FirstOf(tokens, accountIndex);
    if entry.None? then "" else entry.value.mint
  }

  function FirstOf(tokens: seq<TokenBalance>, accountIndex: nat): (r: Option<TokenBalance>)
    ensures r.Some? ==> r.value in tokens && r.value.accountIndex == accountIndex
    ensures r.None? <==> forall i :: 0 <= i < |tokens| ==> tokens[i].accountIndex != accountIndex
  {
    if tokens == [] then None
    else if tokens[0].accountIndex == accountIndex then Some(tokens[0])
    else FirstOf(tokens[1..], accountIndex)
  }

  // ---- instructions

  function Resolve(tx: Transaction, inst: Instruction): Option<seq<Key>> {
    if exists i :: 0 <= i < |inst.accounts| && inst.accounts[i] >= |tx.accountKeys| then None
    else Some(seq(|inst.accounts|, i requires 0 <= i < |inst.accounts| => tx.accountKeys[inst.accounts[i]]))
  }

  function EvaluateSystemTransfer(amount: Option<nat>, accounts: seq<Key>, indexes: seq<nat>, candidates: set<Key>, want: Expected): Option<Match> {
    if amount.None? || |indexes| <= 1 then None
    else if |accounts| <= 1 then None
    else if want.payer != "" && accounts[0] != want.payer then None
    else if accounts[1] !in candidates then None
    else if amount.value < want.amount then None
    else Some(Match(System, amount.value, accounts[0], accounts[1], "", indexes[1]))
  }

  function EvaluateTokenTransfer(meta: Meta, amount: Option<nat>, accounts: seq<Key>, indexes: seq<nat>, candidates: set<Key>, want: Expected): Option<Match> {
    if amount.None? || |indexes| <= 1 then None
    else if |accounts| < 3 then None
    else if accounts[1] !in candidates then None
    else if want.payer != "" && accounts[2] != want.payer then None
    else
      var mint := MintOf(meta.postTokens, indexes[1]);
      if want.mint != "" && mint != "" && !MintMatches(want.mint, mint) then None
      else if amount.value < want.amount then None
      else Some(Match(Token, amount.value, accounts[0], accounts[1], mint, indexes[1]))
  }

  function EvaluateTokenTransferChecked(meta: Meta, amount: Option<nat>, accounts: seq<Key>, indexes: seq<nat>, candidates: set<Key>, want: Expected): Option<Match> {
    if amount.None? || |indexes| <= 2 then None
    else if |accounts| < 4 then None
    else if accounts[2] !in candidates then None
    else if want.payer != "" && accounts[3] != want.payer then None
    else
      var mint := if accounts[1] == "" then MintOf(meta.postTokens, indexes[2]) else accounts[1];
      if want.mint != "" && mint != "" && !MintMatches(want.mint, mint) then None
      else if amount.value < want.amount then None
      else Some(Match(Token, amount.value, accounts[0], accounts[2], mint, indexes[2]))
  }

  function Evaluate(tx: Transaction, meta: Meta, inst: Instruction, candidates: set<Key>, want: Expected): Option<Match> {
    var accounts := Resolve(tx, inst);
    if inst.program.Unresolved? || accounts.None? then None
    else if inst.program.System? && inst.data.Transfer? then
      EvaluateSystemTransfer(inst.data.amount, accounts.value, inst.accounts, candidates, want)
    else if inst.program.Token? && inst.data.Transfer? then
      EvaluateTokenTransfer(meta, inst.data.amount, accounts.value, inst.accounts, candidates, want)
    else if inst.program.Token? && inst.data.TransferChecked? then
      EvaluateTokenTransferChecked(meta, inst.data.amount, accounts.value, inst.accounts, candidates, want)
    else None
  }

  function PickBetterMatch(current: Option<Match>, candidate: Option<Match>): Option<Match> {
    if candidate.None? then current
    else if current.None? then candidate
    else if candidate.value.amount > current.value.amount then candidate
    else current
  }

  datatype Error =
    | Undecoded
    | InvalidPayer
    | PayerMismatch
    | InvalidReference
    | ReferenceMissing
    | NoCandidates
    | InvalidCandidate
    | NoTransfer
    | BalanceNotRaised

  // ---- the declarative reading

  /** The instruction's transfer is from the payer to a candidate, of enough, in the right token. */
  predicate Qualifies(tx: Transaction, meta: Meta, inst: Instruction, candidates: set<Key>, want: Expected) {
    && IsTransfer(inst) && Resolve(tx, inst).Some?
    && var accounts := Resolve(tx, inst).value; var to := DestinationPosition(inst);
    && |accounts| > (if inst.program.System? then to else to + 1)
    && accounts[to] in candidates
    && (want.payer == "" || accounts[if inst.program.System? then 0 else to + 1] == want.payer)
    && inst.data.amount.value >= want.amount
    && (inst.program.Token? ==> MintAllowed(want.mint, TransferMint(meta, inst, accounts)))
  }

  predicate IsTransfer(inst: Instruction) {
    && ((inst.program.System? && inst.data.Transfer?) || (inst.program.Token? && (inst.data.Transfer? || inst.data.TransferChecked?)))
    && inst.data.amount.Some?
  }

  /** Where the destination stands among the accounts; a checked transfer names the mint before it. */
  function DestinationPosition(inst: Instruction): nat {
    if inst.data.TransferChecked? then 2 else 1
  }

  function TransferMint(meta: Meta, inst: Instruction, accounts: seq<Key>): string
    requires |accounts| == |inst.accounts| && |accounts| > DestinationPosition(inst)
  {
    if inst.data.TransferChecked? && accounts[1] != "" then accounts[1]
    else MintOf(meta.postTokens, inst.accounts[DestinationPosition(inst)])
  }

  predicate MintAllowed(expected: string, actual: string) {
    expected == "" || actual == "" || MintMatches(expected, actual)
  }

  /**
   An instruction yields a match exactly when it qualifies; the match carries its amount, and its
   account index is the one at the destination's position, that of a candidate.
   */
  lemma EvaluatesIffQualifies(tx: Transaction, meta: Meta, inst: Instruction, candidates: set<Key>, want: Expected)
    ensures var m := Evaluate(tx, meta, inst, candidates, want);
            && (m.Some? <==> Qualifies(tx, meta, inst, candidates, want))
            && (m.Some? ==> && inst.data.amount == Some(m.value.amount)
                            && m.value.accountIndex == inst.accounts[DestinationPosition(inst)] < |tx.accountKeys|
                            && m.value.destination == tx.accountKeys[m.value.accountIndex]
                            && m.value.destination in candidates)
  {
  }

  // ---- the best match

  function Matches(tx: Transaction, meta: Meta, insts: seq<Instruction>, candidates: set<Key>, want: Expected): seq<Option<Match>> {
    seq(|insts|, i requires 0 <= i < |insts| => Evaluate(tx, meta, insts[i], candidates, want))
  }

  function Best(ms: seq<Option<Match>>): Option<Match> {
    if ms == [] then None else PickBetterMatch(Best(ms[..|ms| - 1]), ms[|ms| - 1])
  }

  /** Match i is the first of those with the greatest amount. */
  predicate IsFirstGreatest(ms: seq<Option<Match>>, i: nat)
    requires i < |ms|
  {
    && ms[i].Some?
    && forall j :: 0 <= j < |ms| && ms[j].Some? ==>
         ms[j].value.amount <= ms[i].value.amount && (j < i ==> ms[j].value.amount < ms[i].value.amount)
  }

  /** The best match is none when there are none, and else the first of the greatest amount. */
  lemma {:induction false} BestIsFirstGreatest(ms: seq<Option<Match>>)
    ensures Best(ms).None? <==> forall i :: 0 <= i < |ms| ==> ms[i].None?
    ensures Best(ms).Some? ==> exists i :: 0 <= i < |ms| && ms[i] == Best(ms) && IsFirstGreatest(ms, i)
  {
    if ms != [] {
      var front, n := ms[..|ms| - 1], |ms| - 1;
      BestIsFirstGreatest(front);
      if Best(front).Some? {
        var i :| 0 <= i < |front| && front[i] == Best(front) && IsFirstGreatest(front, i);
        assert forall j :: 0 <= j < n ==> ms[j] == front[j];
        if ms[n].None? || ms[n].value.amount <= ms[i].value.amount {
          assert IsFirstGreatest(ms, i);
        } else {
          assert IsFirstGreatest(ms, n);
        }
      } else if ms[n].Some? {
        assert IsFirstGreatest(ms, n);
      }
    }
  }

  /**
   Permuting the instructions of a transaction does not change whether there is a match, nor the
   amount that is chosen.
   */
  lemma OrderDoesNotMatter(tx: Transaction, ty: Transaction, meta: Meta, candidates: set<Key>, want: Expected)
    requires tx.accountKeys == ty.accountKeys && multiset(tx.instructions) == multiset(ty.instructions)
    ensures var one, other := Best(AllMatches(tx, meta, candidates, want)), Best(AllMatches(ty, meta, candidates, want));
            (one.Some? <==> other.Some?) && (one.Some? ==> one.value.amount == other.value.amount)
  {
    MatchesAreShared(tx, ty, meta, candidates, want);
    MatchesAreShared(ty, tx, meta, candidates, want);
    BestIsAtLeast(AllMatches(tx, meta, candidates, want), AllMatches(ty, meta, candidates, want));
    BestIsAtLeast(AllMatches(ty, meta, candidates, want), AllMatches(tx, meta, candidates, want));
  }

  lemma MatchesAreShared(tx: Transaction, ty: Transaction, meta: Meta, candidates: set<Key>, want: Expected)
    requires tx.accountKeys == ty.accountKeys && multiset(tx.instructions) == multiset(ty.instructions)
    ensures forall m :: m in AllMatches(tx, meta, candidates, want) ==> m in AllMatches(ty, meta, candidates, want)
  {
    var ms, ns, normalized := AllMatches(tx, meta, candidates, want), AllMatches(ty, meta, candidates, want), want.(mint := NormalizeMint(want.mint));
    forall i | 0 <= i < |ms| ensures ms[i] in ns {
      assert tx.instructions[i] in multiset(tx.instructions);
      var j :| 0 <= j < |ty.instructions| && ty.instructions[j] == tx.instructions[i];
      SameKeysSameMatch(tx, ty, meta, tx.instructions[i], candidates, normalized);
      assert ns[j] == ms[i];
    }
  }

  lemma SameKeysSameMatch(tx: Transaction, ty: Transaction, meta: Meta, inst: Instruction, candidates: set<Key>, want: Expected)
    requires tx.accountKeys == ty.accountKeys
    ensures Evaluate(tx, meta, inst, candidates, want) == Evaluate(ty, meta, inst, candidates, want)
  {
    assert Resolve(tx, inst) == Resolve(ty, inst);
  }

  lemma BestIsAtLeast(ms: seq<Option<Match>>, ns: seq<Option<Match>>)
    requires forall m :: m in ms ==> m in ns
    ensures Best(ms).Some? ==> Best(ns).Some? && Best(ms).value.amount <= Best(ns).value.amount
  {
    BestIsFirstGreatest(ms);
    BestIsFirstGreatest(ns);
    if Best(ms).Some? {
      var i :| 0 <= i < |ms| && ms[i] == Best(ms);
      assert ms[i] in ns;
    }
  }

  /**
   Scans the instructions for the best match. `isKey` tells which texts are public keys.
   */
  method FindTransferMatch(tx: Transaction, meta: Meta, candidates: set<Key>, isKey: string -> bool, want: Expected)
      returns (r: Result<Option<Match>, Error>)
    ensures candidates == {} ==> r == Err(NoCandidates)
    ensures candidates != {} ==> (r.Err? <==> exists k :: k in candidates && !isKey(k))
    ensures candidates != {} && r.Err? ==> r == Err(InvalidCandidate)
    ensures r.Ok? ==> r.value == Best(Matches(tx, meta, tx.instructions, candidates, want.(mint := NormalizeMint(want.mint))))
  {
    if candidates == {} {
      return Err(NoCandidates);
    }
    if exists k :: k in candidates && !isKey(k) {
      return Err(InvalidCandidate);
    }
    var best: Option<Match> := None;
    var normalized := want.(mint := NormalizeMint(want.mint));
    ghost var ms := Matches(tx, meta, tx.instructions, candidates, normalized);
    for k := 0 to |tx.instructions|
      invariant best == Best(ms[..k])
    {
      assert ms[..k + 1][..k] == ms[..k];
      var found := Evaluate(tx, meta, tx.instructions[k], candidates, normalized);
      if found.Some? {
        best := PickBetterMatch(best, found);
      }
    }
    assert ms[..|ms|] == ms;
    r := Ok(best);
  }

  // ---- balances

  function ParseUint64(s: string): (r: Option<nat>)
    ensures r.Some? ==> r.value < TWO_64
  {
    if s == "" || !AllDigits(s) || DigitsValue(s) >= TWO_64 then None else Some(DigitsValue(s))
  }

  /** Parsing gives back every number that fits 64 bits from its decimal text, and refuses every other. */
  lemma ParseInvertsDecimal(n: nat)
    ensures ParseUint64(Decimal(n)) == if n < TWO_64 then Some(n) else None
  {
    DecimalValue(n);
  }

  /** Subtraction of unsigned 64-bit numbers, which wraps around. */
  function SubUint64(a: nat, b: nat): nat {
    (a - b) % TWO_64
  }

  predicate Uint64s(balances: seq<nat>) {
    forall i :: 0 <= i < |balances| ==> balances[i] < TWO_64
  }

  predicate ValidMeta(meta: Meta) {
    Uint64s(meta.preBalances) && Uint64s(meta.postBalances)
  }

  function EntryAmount(entry: TokenBalance): Option<nat> {
    if entry.amount.None? then None else ParseUint64(entry.amount.value)
  }

  /** The amounts after and before; an account without an entry before had nothing. */
  function TokenAmounts(meta: Meta, accountIndex: nat): Option<(nat, nat)> {
    var post, pre := FirstOf(meta.postTokens, accountIndex), FirstOf(meta.preTokens, accountIndex);
    if post.None? || EntryAmount(post.value).None? then None
    else if pre.None? then Some((EntryAmount(post.value).value, 0))
    else if EntryAmount(pre.value).None? then None
    else Some((EntryAmount(post.value).value, EntryAmount(pre.value).value))
  }

  lemma FirstOfDropsOthers(tokens: seq<TokenBalance>, accountIndex: nat, k: nat)
    requires k <= |tokens| && forall i :: 0 <= i < k ==> tokens[i].accountIndex != accountIndex
    ensures FirstOf(tokens[k..], accountIndex) == FirstOf(tokens, accountIndex)
  {
    if k > 0 {
      FirstOfDropsOthers(tokens[1..], accountIndex, k - 1);
      assert tokens[1..][k - 1..] == tokens[k..];
    }
  }

  method FindEntry(tokens: seq<TokenBalance>, accountIndex: nat) returns (entry: Option<TokenBalance>)
    ensures entry == FirstOf(tokens, accountIndex)
  {
    for k := 0 to |tokens|
      invariant forall i :: 0 <= i < k ==> tokens[i].accountIndex != accountIndex
    {
      if tokens[k].accountIndex == accountIndex {
        FirstOfDropsOthers(tokens, accountIndex, k);
        return Some(tokens[k]);
      }
    }
    entry := None;
  }

  method MintForAccount(meta: Meta, accountIndex: nat) returns (mint: string)
    ensures mint == MintOf(meta.postTokens, accountIndex)
  {
    var entry := FindEntry(meta.postTokens, accountIndex);
    mint := if entry.None? then "" else entry.value.mint;
  }

  method TokenBalanceDelta(meta: Meta, accountIndex: nat) returns (r: Option<(nat, nat)>)
    ensures r == TokenAmounts(meta, accountIndex)
  {
    var postAmount, preAmount := 0, 0;
    var post := FindEntry(meta.postTokens, accountIndex);
    if post.None? || post.value.amount.None? {
      return None;
    }
    var parsed := ParseUint64(post.value.amount.value);
    if parsed.None? {
      return None;
    }
    postAmount := parsed.value;
    var pre := FindEntry(meta.preTokens, accountIndex);
    if pre.Some? {
      if pre.value.amount.None? {
        return None;
      }
      parsed := ParseUint64(pre.value.amount.value);
      if parsed.None? {
        return None;
      }
      preAmount := parsed.value;
    }
    r := Some((postAmount, preAmount));
  }

  predicate LamportsRose(meta: Meta, accountIndex: nat, amount: nat) {
    && accountIndex < |meta.preBalances| && accountIndex < |meta.postBalances|
    && meta.postBalances[accountIndex] >= meta.preBalances[accountIndex] + amount
  }

  predicate TokensRose(meta: Meta, accountIndex: nat, amount: nat) {
    var amounts := TokenAmounts(meta, accountIndex);
    amounts.Some? && amounts.value.0 >= amounts.value.1 + amount
  }

  /**
   Succeeds exactly when the lamports of the account rose by at least the amount, or its token
   balance did; the unsigned subtractions never wrap.
   */
  method VerifyBalanceChanges(meta: Meta, accountIndex: nat, amount: nat) returns (ok: bool)
    requires ValidMeta(meta)
    ensures ok <==> LamportsRose(meta, accountIndex, amount) || TokensRose(meta, accountIndex, amount)
  {
    if accountIndex < |meta.postBalances| && accountIndex < |meta.preBalances| {
      var post, pre := meta.postBalances[accountIndex], meta.preBalances[accountIndex];
      if post >= pre && SubUint64(post, pre) >= amount {
        return true;
      }
    }
    var delta := TokenBalanceDelta(meta, accountIndex);
    if delta.None? || delta.value.0 < delta.value.1 {
      return false;
    }
    ok := SubUint64(delta.value.0, delta.value.1) >= amount;
  }

  // ---- the whole check

  method IndexOf(keys: seq<Key>, key: Key) returns (index: Option<nat>)
    ensures index.None? <==> key !in keys
    ensures index.Some? ==> index.value < |keys| && keys[index.value] == key && key !in keys[..index.value]
  {
    for k := 0 to |keys|
      invariant key !in keys[..k]
    {
      if keys[k] == key {
        return Some(k);
      }
    }
    index := None;
  }

  /** All accounts of a message: its own keys, then those loaded through lookup tables. */
  function AllAccounts(tx: Transaction, meta: Meta): seq<Key> {
    tx.accountKeys + meta.loadedWritable + meta.loadedReadOnly
  }

  method MessageContainsKey(tx: Transaction, meta: Meta, key: Key) returns (found: bool)
    ensures found <==> key in AllAccounts(tx, meta)
  {
    var index := IndexOf(tx.accountKeys, key);
    if index.None? {
      index := IndexOf(meta.loadedWritable, key);
    }
    if index.None? {
      index := IndexOf(meta.loadedReadOnly, key);
    }
    found := index.Some?;
  }

  /** The position of the first occurrence of a key among all accounts, or -1. */
  method FindAccountIndex(tx: Transaction, meta: Meta, key: Key) returns (index: int)
    ensures index == -1 <==> key !in AllAccounts(tx, meta)
    ensures index != -1 ==> && 0 <= index < |AllAccounts(tx, meta)| && AllAccounts(tx, meta)[index] == key
                            && key !in AllAccounts(tx, meta)[..index]
  {
    var found := IndexOf(tx.accountKeys, key);
    if found.Some? {
      assert AllAccounts(tx, meta)[..found.value] == tx.accountKeys[..found.value];
      return found.value;
    }
    var offset := |tx.accountKeys|;
    found := IndexOf(meta.loadedWritable, key);
    if found.Some? {
      assert AllAccounts(tx, meta)[..offset + found.value] == tx.accountKeys + meta.loadedWritable[..found.value];
      return offset + found.value;
    }
    offset := offset + |meta.loadedWritable|;
    found := IndexOf(meta.loadedReadOnly, key);
    if found.Some? {
      assert AllAccounts(tx, meta)[..offset + found.value] == tx.accountKeys + meta.loadedWritable + meta.loadedReadOnly[..found.value];
      return offset + found.value;
    }
    index := -1;
  }

  /** Which texts are keys, and the token account of a recipient for a mint, if it can be derived. */
  datatype Environment = Environment(isKey: string -> bool, derive: (string, string) -> Option<string>)

  function Candidates(env: Environment, recipient: string, mint: string): set<Key> {
    {recipient} + if TrimSpace(mint) != "" && env.derive(recipient, mint).Some? && env.derive(recipient, mint).value != ""
                  then {env.derive(recipient, mint).value} else {}
  }

  predicate PayerAccepted(env: Environment, tx: Transaction, payer: string) {
    payer == "" || (env.isKey(payer) && |tx.accountKeys| > 0 && tx.accountKeys[0] == payer)
  }

  predicate ReferenceAccepted(env: Environment, tx: Transaction, meta: Meta, reference: string) {
    reference == "" || (env.isKey(reference) && reference in AllAccounts(tx, meta))
  }

  function AllMatches(tx: Transaction, meta: Meta, candidates: set<Key>, want: Expected): seq<Option<Match>> {
    Matches(tx, meta, tx.instructions, candidates, want.(mint := NormalizeMint(want.mint)))
  }

  /** The account checked for a rise is the destination of the chosen transfer. */
  predicate Rose(meta: Meta, accountIndex: nat, amount: nat) {
    LamportsRose(meta, accountIndex, amount) || TokensRose(meta, accountIndex, amount)
  }

  /** The check of transfer and balances. */
  predicate Accepted(tx: Transaction, meta: Meta, candidates: set<Key>, want: Expected) {
    var best := Best(AllMatches(tx, meta, candidates, want));
    best.Some? && Rose(meta, best.value.accountIndex, want.amount)
  }

  /** Payer and reference are as expected, all candidates are keys, and the best match among them is paid in. */
  predicate Accepts(env: Environment, tx: Transaction, meta: Meta, recipient: string, want: Expected, reference: string) {
    && PayerAccepted(env, tx, want.payer) && ReferenceAccepted(env, tx, meta, reference)
    && (forall k :: k in Candidates(env, recipient, want.mint) ==> env.isKey(k))
    && Accepted(tx, meta, Candidates(env, recipient, want.mint), want)
  }

  method ValidateTransactionContent(env: Environment, decoded: Option<Transaction>, meta: Meta, recipient: string,
                                    want: Expected, reference: string) returns (r: Result<Match, Error>)
    requires ValidMeta(meta)
    ensures r.Ok? <==> decoded.Some? && Accepts(env, decoded.value, meta, recipient, want, reference)
    ensures r.Ok? ==> Best(AllMatches(decoded.value, meta, Candidates(env, recipient, want.mint), want)) == Some(r.value)
    ensures r == Err(Undecoded) <==> decoded.None?
    ensures decoded.Some? ==> (r in {Err(InvalidPayer), Err(PayerMismatch)} <==> !PayerAccepted(env, decoded.value, want.payer))
    ensures r == Err(NoTransfer) ==> Best(AllMatches(decoded.value, meta, Candidates(env, recipient, want.mint), want)).None?
  {
    if decoded.None? {
      return Err(Undecoded);
    }
    var tx := decoded.value;
    if want.payer != "" {
      if !env.isKey(want.payer) {
        return Err(InvalidPayer);
      }
      if |tx.accountKeys| == 0 || tx.accountKeys[0] != want.payer {
        return Err(PayerMismatch);
      }
    }
    if reference != "" {
      if !env.isKey(reference) {
        return Err(InvalidReference);
      }
      var found := MessageContainsKey(tx, meta, reference);
      if !found {
        return Err(ReferenceMissing);
      }
    }
    r := CheckTransfer(env, tx, meta, recipient, want);
  }

  /** The second half of the check: the candidates, the best match among them, and its account's balance. */
  method CheckTransfer(env: Environment, tx: Transaction, meta: Meta, recipient: string, want: Expected) returns (r: Result<Match, Error>)
    requires ValidMeta(meta)
    ensures r.Ok? <==> (forall k :: k in Candidates(env, recipient, want.mint) ==> env.isKey(k))
                       && Accepted(tx, meta, Candidates(env, recipient, want.mint), want)
    ensures r.Ok? ==> Best(AllMatches(tx, meta, Candidates(env, recipient, want.mint), want)) == Some(r.value)
    ensures r.Err? ==> r.error in {InvalidCandidate, NoTransfer, BalanceNotRaised}
    ensures r == Err(NoTransfer) ==> Best(AllMatches(tx, meta, Candidates(env, recipient, want.mint), want)).None?
  {
    var candidates := {recipient};
    if TrimSpace(want.mint) != "" {
      var derived := env.derive(recipient, want.mint);
      if derived.Some? && derived.value != "" {
        candidates := candidates + {derived.value};
      }
    }
    assert candidates == Candidates(env, recipient, want.mint);
    var found := FindTransferMatch(tx, meta, candidates, env.isKey, want);
    if found.Err? {
      return Err(found.error);
    }
    if found.value.None? {
      return Err(NoTransfer);
    }
    var ok := VerifyBalanceChanges(meta, found.value.value.accountIndex, want.amount);
    if !ok {
      return Err(BalanceNotRaised);
    }
    r := Ok(found.value.value);
  }

  /**
   What an acceptance proves: some instruction is a qualifying transfer to a candidate, none
   transfers more, and that very candidate's balance rose by the expected amount.
   */
  lemma AcceptanceMeansPaid(tx: Transaction, meta: Meta, candidates: set<Key>, want: Expected)
    requires var best := Best(AllMatches(tx, meta, candidates, want));
             best.Some? && Rose(meta, best.value.accountIndex, want.amount)
    ensures var normalized := want.(mint := NormalizeMint(want.mint));
            exists i :: 0 <= i < |tx.instructions|
              && Qualifies(tx, meta, tx.instructions[i], candidates, normalized)
              && (forall j :: 0 <= j < |tx.instructions| && Qualifies(tx, meta, tx.instructions[j], candidates, normalized) ==>
                    tx.instructions[j].data.amount.value <= tx.instructions[i].data.amount.value)
              && PaidInto(tx, meta, tx.instructions[i], candidates, want.amount)
  {
    var ms, normalized := AllMatches(tx, meta, candidates, want), want.(mint := NormalizeMint(want.mint));
    BestIsFirstGreatest(ms);
    var i :| 0 <= i < |ms| && ms[i] == Best(ms) && IsFirstGreatest(ms, i);
    EvaluatesIffQualifies(tx, meta, tx.instructions[i], candidates, normalized);
    GreatestTransfersMost(tx, meta, candidates, normalized, i);
    MatchIsPaidInto(tx, meta, tx.instructions[i], candidates, normalized, want.amount);
  }

  lemma GreatestTransfersMost(tx: Transaction, meta: Meta, candidates: set<Key>, want: Expected, i: nat)
    requires i < |tx.instructions| && IsFirstGreatest(Matches(tx, meta, tx.instructions, candidates, want), i)
    ensures tx.instructions[i].data.Transfer? || tx.instructions[i].data.TransferChecked?
    ensures tx.instructions[i].data.amount.Some?
    ensures forall j :: 0 <= j < |tx.instructions| && Qualifies(tx, meta, tx.instructions[j], candidates, want) ==>
              tx.instructions[j].data.amount.value <= tx.instructions[i].data.amount.value
  {
    var ms := Matches(tx, meta, tx.instructions, candidates, want);
    EvaluatesIffQualifies(tx, meta, tx.instructions[i], candidates, want);
    forall j | 0 <= j < |tx.instructions| && Qualifies(tx, meta, tx.instructions[j], candidates, want)
      ensures tx.instructions[j].data.amount.value <= tx.instructions[i].data.amount.value
    {
      EvaluatesIffQualifies(tx, meta, tx.instructions[j], candidates, want);
      assert ms[j].Some?;
    }
  }

  lemma MatchIsPaidInto(tx: Transaction, meta: Meta, inst: Instruction, candidates: set<Key>, want: Expected, amount: nat)
    requires var m := Evaluate(tx, meta, inst, candidates, want); m.Some? && Rose(meta, m.value.accountIndex, amount)
    ensures PaidInto(tx, meta, inst, candidates, amount)
  {
  }

  /** The destination is a candidate, and its account rose. */
  predicate PaidInto(tx: Transaction, meta: Meta, inst: Instruction, candidates: set<Key>, amount: nat) {
    var to := DestinationPosition(inst);
    && to < |inst.accounts| && inst.accounts[to] < |tx.accountKeys|
    && tx.accountKeys[inst.accounts[to]] in candidates
    && Rose(meta, inst.accounts[to], amount)
  }

  // ---- which transfers are accepted

  /** The first entry of the account tells this balance. */
  predicate HasBalance(tokens: seq<TokenBalance>, accountIndex: nat, amount: nat) {
    exists k :: 0 <= k < |tokens| && tokens[k].accountIndex == accountIndex && tokens[k].amount == Some(Decimal(amount))
                && forall j :: 0 <= j < k ==> tokens[j].accountIndex != accountIndex
  }

  predicate HasNoEntry(tokens: seq<TokenBalance>, accountIndex: nat) {
    forall k :: 0 <= k < |tokens| ==> tokens[k].accountIndex != accountIndex
  }

  lemma FirstTellsBalance(tokens: seq<TokenBalance>, accountIndex: nat, amount: nat)
    requires HasBalance(tokens, accountIndex, amount) && amount < TWO_64
    ensures var entry := FirstOf(tokens, accountIndex); entry.Some? && EntryAmount(entry.value) == Some(amount)
  {
    var k :| 0 <= k < |tokens| && tokens[k].accountIndex == accountIndex && tokens[k].amount == Some(Decimal(amount))
             && forall j :: 0 <= j < k ==> tokens[j].accountIndex != accountIndex;
    FirstOfDropsOthers(tokens, accountIndex, k);
    assert tokens[k..][0] == tokens[k];
    ParseInvertsDecimal(amount);
  }

  /** The token balance rose by an amount: from what its texts say before, or from nothing, to what they say after. */
  lemma TextsTellTheRise(meta: Meta, accountIndex: nat, before: nat, after: nat, amount: nat)
    requires HasBalance(meta.postTokens, accountIndex, after) && before < TWO_64 && after < TWO_64
    requires HasBalance(meta.preTokens, accountIndex, before) || (before == 0 && HasNoEntry(meta.preTokens, accountIndex))
    ensures TokensRose(meta, accountIndex, amount) <==> after >= before + amount
  {
    FirstTellsBalance(meta.postTokens, accountIndex, after);
    if HasBalance(meta.preTokens, accountIndex, before) {
      FirstTellsBalance(meta.preTokens, accountIndex, before);
    }
  }

  /** Every other instruction moves less, or nothing. */
  predicate OthersMoveLess(tx: Transaction, i: nat, amount: nat) {
    forall j :: 0 <= j < |tx.instructions| && j != i && IsTransfer(tx.instructions[j]) ==> tx.instructions[j].data.amount.value < amount
  }

  lemma GreatestIsChosen(tx: Transaction, meta: Meta, candidates: set<Key>, want: Expected, normalized: Expected, i: nat)
    requires i < |tx.instructions| && Qualifies(tx, meta, tx.instructions[i], candidates, normalized)
    requires OthersMoveLess(tx, i, tx.instructions[i].data.amount.value)
    requires Rose(meta, tx.instructions[i].accounts[DestinationPosition(tx.instructions[i])], want.amount)
    requires normalized == want.(mint := NormalizeMint(want.mint))
    ensures Accepted(tx, meta, candidates, want)
  {
    var ms := AllMatches(tx, meta, candidates, want);
    EvaluatesIffQualifies(tx, meta, tx.instructions[i], candidates, normalized);
    BestIsFirstGreatest(ms);
    assert ms[i].Some?;
    var k :| 0 <= k < |ms| && ms[k] == Best(ms) && IsFirstGreatest(ms, k);
    EvaluatesIffQualifies(tx, meta, tx.instructions[k], candidates, normalized);
    assert k == i;
  }

  /** The payer, if one is expected, pays the fees, and the reference, if one is expected, is among the accounts. */
  predicate IsAddressed(env: Environment, tx: Transaction, meta: Meta, payer: string, reference: string) {
    && (payer != "" ==> env.isKey(payer) && |tx.accountKeys| > 0 && tx.accountKeys[0] == payer)
    && (reference != "" ==> env.isKey(reference) && (reference in tx.accountKeys || reference in meta.loadedWritable || reference in meta.loadedReadOnly))
  }

  predicate AccountsInRange(tx: Transaction, accounts: seq<nat>) {
    forall k :: 0 <= k < |accounts| ==> accounts[k] < |tx.accountKeys|
  }

  /**
   The ordinary token payment is accepted: a checked transfer of the expected mint, of enough, by the
   payer, into the token account derived for the recipient, whose token balance rises by as much,
   while nothing else in the transaction moves as much.
   */
  lemma TokenPaymentIsAccepted(env: Environment, tx: Transaction, meta: Meta, recipient: string, want: Expected, reference: string,
                               i: nat, accounts: seq<nat>, sent: nat, before: nat, after: nat)
    requires IsAddressed(env, tx, meta, want.payer, reference) && TrimSpace(want.mint) != ""
    requires i < |tx.instructions| && tx.instructions[i] == Instruction(Token, accounts, TransferChecked(Some(sent)))
    requires |accounts| >= 4 && AccountsInRange(tx, accounts) && tx.accountKeys[accounts[1]] == want.mint
    requires env.derive(recipient, want.mint) == Some(tx.accountKeys[accounts[2]]) && tx.accountKeys[accounts[2]] != ""
    requires env.isKey(recipient) && env.isKey(tx.accountKeys[accounts[2]])
    requires want.payer == "" || tx.accountKeys[accounts[3]] == want.payer
    requires sent >= want.amount && OthersMoveLess(tx, i, sent)
    requires HasBalance(meta.postTokens, accounts[2], after) && before + want.amount <= after < TWO_64
    requires HasBalance(meta.preTokens, accounts[2], before) || (before == 0 && HasNoEntry(meta.preTokens, accounts[2]))
    ensures Accepts(env, tx, meta, recipient, want, reference)
  {
    TextsTellTheRise(meta, accounts[2], before, after, want.amount);
    MintAllowsItself(want.mint);
    CheckedTransferIsAccepted(env, tx, meta, recipient, want, want.(mint := NormalizeMint(want.mint)), reference, i, accounts, sent);
  }

  lemma CheckedTransferIsAccepted(env: Environment, tx: Transaction, meta: Meta, recipient: string, want: Expected, normalized: Expected,
                                  reference: string, i: nat, accounts: seq<nat>, sent: nat)
    requires IsAddressed(env, tx, meta, want.payer, reference)
    requires normalized == want.(mint := NormalizeMint(want.mint)) && MintAllowed(normalized.mint, want.mint) && want.mint != ""
    requires i < |tx.instructions| && tx.instructions[i] == Instruction(Token, accounts, TransferChecked(Some(sent)))
    requires |accounts| >= 4 && AccountsInRange(tx, accounts) && tx.accountKeys[accounts[1]] == want.mint
    requires Candidates(env, recipient, want.mint) == {recipient, tx.accountKeys[accounts[2]]}
    requires env.isKey(recipient) && env.isKey(tx.accountKeys[accounts[2]])
    requires want.payer == "" || tx.accountKeys[accounts[3]] == want.payer
    requires sent >= want.amount && OthersMoveLess(tx, i, sent) && TokensRose(meta, accounts[2], want.amount)
    ensures Accepts(env, tx, meta, recipient, want, reference)
  {
    CheckedTransferQualifies(tx, meta, tx.instructions[i], accounts, Candidates(env, recipient, want.mint), normalized, want.mint, sent);
    ChosenIsAccepted(env, tx, meta, recipient, want, normalized, reference, i, accounts[2]);
  }

  lemma ChosenIsAccepted(env: Environment, tx: Transaction, meta: Meta, recipient: string, want: Expected, normalized: Expected, reference: string,
                         i: nat, paidInto: nat)
    requires i < |tx.instructions| && Qualifies(tx, meta, tx.instructions[i], Candidates(env, recipient, want.mint), normalized)
    requires OthersMoveLess(tx, i, tx.instructions[i].data.amount.value)
    requires paidInto == tx.instructions[i].accounts[DestinationPosition(tx.instructions[i])] && Rose(meta, paidInto, want.amount)
    requires IsAddressed(env, tx, meta, want.payer, reference) && forall k :: k in Candidates(env, recipient, want.mint) ==> env.isKey(k)
    requires normalized == want.(mint := NormalizeMint(want.mint))
    ensures Accepts(env, tx, meta, recipient, want, reference)
  {
    GreatestIsChosen(tx, meta, Candidates(env, recipient, want.mint), want, normalized, i);
  }

  lemma CheckedTransferQualifies(tx: Transaction, meta: Meta, inst: Instruction, accounts: seq<nat>, candidates: set<Key>, want: Expected, mint: string,
                                 sent: nat)
    requires inst == Instruction(Token, accounts, TransferChecked(Some(sent))) && sent >= want.amount
    requires |accounts| >= 4 && AccountsInRange(tx, accounts) && tx.accountKeys[accounts[2]] in candidates
    requires tx.accountKeys[accounts[1]] == mint && mint != "" && MintAllowed(want.mint, mint)
    requires want.payer == "" || tx.accountKeys[accounts[3]] == want.payer
    ensures Qualifies(tx, meta, inst, candidates, want)
  {
    var keys := Resolve(tx, inst).value;
    assert keys[1] == mint && keys[2] == tx.accountKeys[accounts[2]] && keys[3] == tx.accountKeys[accounts[3]];
  }

  lemma MintAllowsItself(mint: string)
    ensures MintAllowed(NormalizeMint(mint), mint)
    ensures mint == "" ==> TrimSpace(mint) == ""
  {
    UpperIsIdempotent(mint);
  }

  /** The same for a plain token transfer, whose mint is that of the entries of the account it goes into. */
  lemma PlainTokenPaymentIsAccepted(env: Environment, tx: Transaction, meta: Meta, recipient: string, want: Expected, reference: string,
                                    i: nat, accounts: seq<nat>, sent: nat, before: nat, after: nat)
    requires IsAddressed(env, tx, meta, want.payer, reference) && TrimSpace(want.mint) != ""
    requires i < |tx.instructions| && tx.instructions[i] == Instruction(Token, accounts, Data.Transfer(Some(sent)))
    requires |accounts| >= 3 && AccountsInRange(tx, accounts)
    requires forall entry :: entry in meta.postTokens && entry.accountIndex == accounts[1] ==> entry.mint == want.mint
    requires env.derive(recipient, want.mint) == Some(tx.accountKeys[accounts[1]]) && tx.accountKeys[accounts[1]] != ""
    requires env.isKey(recipient) && env.isKey(tx.accountKeys[accounts[1]])
    requires want.payer == "" || tx.accountKeys[accounts[2]] == want.payer
    requires sent >= want.amount && OthersMoveLess(tx, i, sent)
    requires HasBalance(meta.postTokens, accounts[1], after) && before + want.amount <= after < TWO_64
    requires HasBalance(meta.preTokens, accounts[1], before) || (before == 0 && HasNoEntry(meta.preTokens, accounts[1]))
    ensures Accepts(env, tx, meta, recipient, want, reference)
  {
    TextsTellTheRise(meta, accounts[1], before, after, want.amount);
    MintAllowsItself(want.mint);
    PlainTransferIsAccepted(env, tx, meta, recipient, want, want.(mint := NormalizeMint(want.mint)), reference, i, accounts, sent);
  }

  lemma PlainTransferIsAccepted(env: Environment, tx: Transaction, meta: Meta, recipient: string, want: Expected, normalized: Expected,
                                reference: string, i: nat, accounts: seq<nat>, sent: nat)
    requires IsAddressed(env, tx, meta, want.payer, reference)
    requires normalized == want.(mint := NormalizeMint(want.mint)) && MintAllowed(normalized.mint, want.mint) && want.mint != ""
    requires i < |tx.instructions| && tx.instructions[i] == Instruction(Token, accounts, Data.Transfer(Some(sent)))
    requires |accounts| >= 3 && AccountsInRange(tx, accounts)
    requires forall entry :: entry in meta.postTokens && entry.accountIndex == accounts[1] ==> entry.mint == want.mint
    requires Candidates(env, recipient, want.mint) == {recipient, tx.accountKeys[accounts[1]]}
    requires env.isKey(recipient) && env.isKey(tx.accountKeys[accounts[1]])
    requires want.payer == "" || tx.accountKeys[accounts[2]] == want.payer
    requires sent >= want.amount && OthersMoveLess(tx, i, sent) && TokensRose(meta, accounts[1], want.amount)
    ensures Accepts(env, tx, meta, recipient, want, reference)
  {
    PlainTransferQualifies(tx, meta, tx.instructions[i], accounts, Candidates(env, recipient, want.mint), normalized, want.mint, sent);
    ChosenIsAccepted(env, tx, meta, recipient, want, normalized, reference, i, accounts[1]);
  }

  lemma PlainTransferQualifies(tx: Transaction, meta: Meta, inst: Instruction, accounts: seq<nat>, candidates: set<Key>, want: Expected, mint: string,
                               sent: nat)
    requires inst == Instruction(Token, accounts, Data.Transfer(Some(sent))) && sent >= want.amount
    requires |accounts| >= 3 && AccountsInRange(tx, accounts) && tx.accountKeys[accounts[1]] in candidates
    requires MintAllowed(want.mint, mint) && forall entry :: entry in meta.postTokens && entry.accountIndex == accounts[1] ==> entry.mint == mint
    requires want.payer == "" || tx.accountKeys[accounts[2]] == want.payer
    ensures Qualifies(tx, meta, inst, candidates, want)
  {
    var keys := Resolve(tx, inst).value;
    assert keys[1] == tx.accountKeys[accounts[1]] && keys[2] == tx.accountKeys[accounts[2]];
  }

  /** So is the ordinary native payment: a system transfer of enough, by the payer, to the recipient, whose lamports rise by as much. */
  lemma NativePaymentIsAccepted(env: Environment, tx: Transaction, meta: Meta, recipient: string, want: Expected, reference: string,
                                i: nat, accounts: seq<nat>, sent: nat)
    requires IsAddressed(env, tx, meta, want.payer, reference)
    requires i < |tx.instructions| && tx.instructions[i] == Instruction(System, accounts, Data.Transfer(Some(sent)))
    requires |accounts| >= 2 && AccountsInRange(tx, accounts) && tx.accountKeys[accounts[1]] == recipient
    requires env.isKey(recipient)
    requires var derived := env.derive(recipient, want.mint);
             TrimSpace(want.mint) == "" || derived.None? || derived == Some("") || env.isKey(derived.value)
    requires want.payer == "" || tx.accountKeys[accounts[0]] == want.payer
    requires sent >= want.amount && OthersMoveLess(tx, i, sent)
    requires accounts[1] < |meta.preBalances| && accounts[1] < |meta.postBalances|
    requires meta.postBalances[accounts[1]] >= meta.preBalances[accounts[1]] + want.amount
    ensures Accepts(env, tx, meta, recipient, want, reference)
  {
    var keys := Resolve(tx, tx.instructions[i]).value;
    assert keys[0] == tx.accountKeys[accounts[0]] && keys[1] == recipient;
    ChosenIsAccepted(env, tx, meta, recipient, want, want.(mint := NormalizeMint(want.mint)), reference, i, accounts[1]);
  }

  /**
   The instruction moves enough from one position of its accounts, the payer's if one is expected, to
   another: to the recipient itself or, for a mint that is not blank, to its token account. That
   account rose by the expected amount.
   */
  predicate Moves(env: Environment, tx: Transaction, meta: Meta, inst: Instruction, from: nat, to: nat, recipient: string, want: Expected)
    requires inst.data.Transfer? || inst.data.TransferChecked?
  {
    && inst.data.amount.Some? && inst.data.amount.value >= want.amount
    && from < |inst.accounts| && to < |inst.accounts| && AccountsInRange(tx, inst.accounts)
    && (want.payer == "" || tx.accountKeys[inst.accounts[from]] == want.payer)
    && var destination := tx.accountKeys[inst.accounts[to]];
       && (destination == recipient || (TrimSpace(want.mint) != "" && env.derive(recipient, want.mint) == Some(destination)))
       && (LamportsRose(meta, inst.accounts[to], want.amount) || TokensRose(meta, inst.accounts[to], want.amount))
  }

  /** One of the three transfers that pay: of lamports, of tokens, or of tokens with their mint named. */
  predicate IsPayment(env: Environment, tx: Transaction, meta: Meta, inst: Instruction, recipient: string, want: Expected) {
    || (inst.program.System? && inst.data.Transfer? && Moves(env, tx, meta, inst, 0, 1, recipient, want))
    || (inst.program.Token? && inst.data.Transfer? && Moves(env, tx, meta, inst, 2, 1, recipient, want)
        && SameMintIfKnown(want.mint, MintOf(meta.postTokens, inst.accounts[1])))
    || (inst.program.Token? && inst.data.TransferChecked? && Moves(env, tx, meta, inst, 3, 2, recipient, want)
        && SameMintIfKnown(want.mint, tx.accountKeys[inst.accounts[1]]))
  }

  /** The mints agree, blanks around them and case aside, unless one of them is blank. */
  predicate SameMintIfKnown(expected: string, actual: string) {
    TrimSpace(expected) == "" || actual == "" || ToUpper(TrimSpace(expected)) == ToUpper(TrimSpace(actual))
  }

  lemma AllowedMeansSame(expected: string)
    ensures forall mint :: MintAllowed(NormalizeMint(expected), mint) ==> SameMintIfKnown(expected, mint)
  {
    forall mint | MintAllowed(NormalizeMint(expected), mint) ensures SameMintIfKnown(expected, mint) {
      AllowedIsSameMint(expected, mint);
    }
  }

  lemma AllowedIsSameMint(expected: string, actual: string)
    requires MintAllowed(NormalizeMint(expected), actual)
    ensures SameMintIfKnown(expected, actual)
  {
    UpperIsIdempotent(expected);
    if TrimSpace(expected) != "" {
      MintsMatchIgnoringCase(expected, actual);
    }
  }

  /** Conversely, whatever is accepted holds a transfer into the recipient or its token account, into no other. */
  lemma AcceptanceNamesTheRecipient(env: Environment, tx: Transaction, meta: Meta, recipient: string, want: Expected, reference: string)
    requires Accepts(env, tx, meta, recipient, want, reference)
    ensures IsAddressed(env, tx, meta, want.payer, reference)
    ensures exists i :: 0 <= i < |tx.instructions| && IsPayment(env, tx, meta, tx.instructions[i], recipient, want)
  {
    var candidates, normalized := Candidates(env, recipient, want.mint), want.(mint := NormalizeMint(want.mint));
    var ms := AllMatches(tx, meta, candidates, want);
    BestIsFirstGreatest(ms);
    var i :| 0 <= i < |ms| && ms[i] == Best(ms) && IsFirstGreatest(ms, i);
    EvaluatesIffQualifies(tx, meta, tx.instructions[i], candidates, normalized);
    AllowedMeansSame(want.mint);
    QualifyingPays(env, tx, meta, tx.instructions[i], recipient, want, normalized);
  }

  lemma QualifyingPays(env: Environment, tx: Transaction, meta: Meta, inst: Instruction, recipient: string, want: Expected, normalized: Expected)
    requires normalized.amount == want.amount && normalized.payer == want.payer
    requires forall mint :: MintAllowed(normalized.mint, mint) ==> SameMintIfKnown(want.mint, mint)
    requires Qualifies(tx, meta, inst, Candidates(env, recipient, want.mint), normalized)
    requires Rose(meta, inst.accounts[DestinationPosition(inst)], want.amount)
    ensures IsPayment(env, tx, meta, inst, recipient, want)
  {
    var to := DestinationPosition(inst);
    QualifyingMoves(env, tx, meta, inst, if inst.program.System? then 0 else to + 1, to, recipient, want, normalized);
    var keys := Resolve(tx, inst).value;
    assert keys[1] == tx.accountKeys[inst.accounts[1]];
  }

  lemma QualifyingMoves(env: Environment, tx: Transaction, meta: Meta, inst: Instruction, from: nat, to: nat, recipient: string, want: Expected,
                        normalized: Expected)
    requires normalized.amount == want.amount && normalized.payer == want.payer
    requires Qualifies(tx, meta, inst, Candidates(env, recipient, want.mint), normalized)
    requires to == DestinationPosition(inst) && from == (if inst.program.System? then 0 else to + 1) && Rose(meta, inst.accounts[to], want.amount)
    ensures Moves(env, tx, meta, inst, from, to, recipient, want)
  {
    var keys := Resolve(tx, inst).value;
    assert keys[to] == tx.accountKeys[inst.accounts[to]] && keys[from] == tx.accountKeys[inst.accounts[from]];
  }

  // ---- tokens and lamports

  /** The same transaction, its token amounts aside. */
  predicate SameButTokenAmounts(meta: Meta, other: Meta) {
    && other.preBalances == meta.preBalances && other.postBalances == meta.postBalances
    && other.loadedWritable == meta.loadedWritable && other.loadedReadOnly == meta.loadedReadOnly
    && SameEntries(meta.postTokens, other.postTokens) && SameEntries(meta.preTokens, other.preTokens)
  }

  predicate SameEntries(tokens: seq<TokenBalance>, others: seq<TokenBalance>) {
    |others| == |tokens| && forall i :: 0 <= i < |tokens| ==> others[i] == tokens[i].(amount := others[i].amount)
  }

  function WithoutAmounts(tokens: seq<TokenBalance>): seq<TokenBalance> {
    seq(|tokens|, i requires 0 <= i < |tokens| => tokens[i].(amount := None))
  }

  function WithoutTokenAmounts(meta: Meta): Meta {
    meta.(preTokens := WithoutAmounts(meta.preTokens), postTokens := WithoutAmounts(meta.postTokens))
  }

  lemma {:induction false} SameEntriesSameFirst(tokens: seq<TokenBalance>, others: seq<TokenBalance>, accountIndex: nat)
    requires SameEntries(tokens, others)
    ensures var one, other := FirstOf(tokens, accountIndex), FirstOf(others, accountIndex);
            (one.Some? <==> other.Some?) && (one.Some? ==> one.value.mint == other.value.mint)
  {
    if tokens != [] {
      SameEntriesSameFirst(tokens[1..], others[1..], accountIndex);
    }
  }

  lemma SameEntriesSameMatch(tx: Transaction, meta: Meta, other: Meta, inst: Instruction, candidates: set<Key>, want: Expected)
    requires SameButTokenAmounts(meta, other)
    ensures Evaluate(tx, meta, inst, candidates, want) == Evaluate(tx, other, inst, candidates, want)
  {
    forall k: nat ensures MintOf(meta.postTokens, k) == MintOf(other.postTokens, k) {
      SameEntriesSameFirst(meta.postTokens, other.postTokens, k);
    }
  }

  /** Which transfer is chosen does not depend on the token amounts. */
  lemma SameEntriesSameBest(tx: Transaction, meta: Meta, other: Meta, candidates: set<Key>, want: Expected)
    requires SameButTokenAmounts(meta, other)
    ensures AllMatches(tx, meta, candidates, want) == AllMatches(tx, other, candidates, want)
  {
    var normalized := want.(mint := NormalizeMint(want.mint));
    forall i | 0 <= i < |tx.instructions|
      ensures Evaluate(tx, meta, tx.instructions[i], candidates, normalized) == Evaluate(tx, other, tx.instructions[i], candidates, normalized)
    {
      SameEntriesSameMatch(tx, meta, other, tx.instructions[i], candidates, normalized);
    }
  }

  /** The chosen transfer is one of tokens, and the token balance of its destination rose. */
  predicate PaidInTokens(tx: Transaction, meta: Meta, candidates: set<Key>, want: Expected) {
    var best := Best(AllMatches(tx, meta, candidates, want));
    best.Some? && best.value.program == Token && TokensRose(meta, best.value.accountIndex, want.amount)
  }

  /**
   When an acceptance says that tokens were paid. For a transaction with a chosen transfer, every
   acceptance, whatever the token amounts, comes with a rise of the token balance if and only if the
   lamports of the destination did not rise by as much: the check looks at lamports first, also for
   a token. It is then a payment in tokens exactly when the chosen transfer is one of tokens.
   */
  lemma AcceptanceMeansTokensExactlyWhen(tx: Transaction, meta: Meta, candidates: set<Key>, want: Expected)
    requires Best(AllMatches(tx, meta, candidates, want)).Some?
    ensures var best := Best(AllMatches(tx, meta, candidates, want)).value;
            && ((forall other :: SameButTokenAmounts(meta, other) && Accepted(tx, other, candidates, want) ==>
                   TokensRose(other, best.accountIndex, want.amount))
                <==> !LamportsRose(meta, best.accountIndex, want.amount))
            && (Accepted(tx, meta, candidates, want) && !LamportsRose(meta, best.accountIndex, want.amount) ==>
                  (PaidInTokens(tx, meta, candidates, want) <==> best.program == Token))
  {
    var best := Best(AllMatches(tx, meta, candidates, want)).value;
    var bare := WithoutTokenAmounts(meta);
    assert SameButTokenAmounts(meta, bare);
    SameEntriesSameBest(tx, meta, bare, candidates, want);
    assert !TokensRose(bare, best.accountIndex, want.amount);
    forall other | SameButTokenAmounts(meta, other) && Accepted(tx, other, candidates, want)
      ensures LamportsRose(meta, best.accountIndex, want.amount) || TokensRose(other, best.accountIndex, want.amount)
    {
      SameEntriesSameBest(tx, meta, other, candidates, want);
    }
    if LamportsRose(meta, best.accountIndex, want.amount) {
      assert Accepted(tx, bare, candidates, want);
    }
  }

  /** A transfer of `amount` lamports from `payer` to `recipient`, and nothing else. */
  function NativePayment(payer: Key, recipient: Key, amount: nat): Transaction {
    Transaction([payer, recipient], [Instruction(System, [0, 1], Data.Transfer(Some(amount)))])
  }

  function NativeMeta(amount: nat): Meta {
    Meta([amount, 0], [0, amount], [], [], [], [])
  }

  /**
   So a payment that is due in a token, whichever it is, is accepted when as many lamports are sent:
   a native transfer is not asked for its mint, and the lamports rise.
   */
  lemma LamportsPassForTokens(payer: Key, recipient: Key, mint: string, amount: nat, candidates: set<Key>)
    requires recipient in candidates
    ensures var tx, meta, want := NativePayment(payer, recipient, amount), NativeMeta(amount), Expected(amount, mint, payer);
            Accepted(tx, meta, candidates, want) && !PaidInTokens(tx, meta, candidates, want)
  {
    var tx, meta, want := NativePayment(payer, recipient, amount), NativeMeta(amount), Expected(amount, mint, payer);
    NativeEvaluates(payer, recipient, amount, meta, candidates, want.(mint := NormalizeMint(mint)));
    SingleIsBest(AllMatches(tx, meta, candidates, want));
  }

  lemma NativeEvaluates(payer: Key, recipient: Key, amount: nat, meta: Meta, candidates: set<Key>, want: Expected)
    requires recipient in candidates && want.payer == payer && want.amount == amount
    ensures var tx := NativePayment(payer, recipient, amount);
            Evaluate(tx, meta, tx.instructions[0], candidates, want) == Some(Match(System, amount, payer, recipient, "", 1))
  {
    var tx := NativePayment(payer, recipient, amount);
    var inst := tx.instructions[0];
    assert inst.accounts[0] == 0 && inst.accounts[1] == 1;
    var accounts := Resolve(tx, inst).value;
    assert accounts[0] == payer && accounts[1] == recipient;
  }

  lemma SingleIsBest(ms: seq<Option<Match>>)
    requires |ms| == 1
    ensures Best(ms) == ms[0]
  {
    assert ms[..0] == [];
  }

  /** Mints are compared without regard to case, although their texts are case-sensitive. */
  lemma MintsMatchIgnoringCase(expected: string, actual: string)
    requires NormalizeMint(expected) != ""
    ensures MintMatches(expected, actual) <==> ToUpper(TrimSpace(expected)) == ToUpper(TrimSpace(actual))
  {
    UpperIsIdempotent(expected);
    UpperIsIdempotent(actual);
  }

  lemma UpperTwice(t: string)
    ensures ToUpper(ToUpper(t)) == ToUpper(t)
    ensures IsTrimmed(t) ==> IsTrimmed(ToUpper(t))
  {
    if t != "" {
      assert ToUpper(t)[0] == UpperChar(t[0]) && ToUpper(t)[|t| - 1] == UpperChar(t[|t| - 1]);
    }
  }

  lemma UpperIsIdempotent(m: string)
    ensures NormalizeMint(NormalizeMint(m)) == NormalizeMint(m)
  {
    TrimSpaceIsTrimmed(m);
    UpperTwice(TrimSpace(m));
    TrimmedStays(NormalizeMint(m));
  }
}

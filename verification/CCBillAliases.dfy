/**
 The usernames under which users are known to CCBill: a table of aliases where both the alias and
 the user are unique and rows are never removed. A new user tries five candidates.
 */
module CCBillAliases {
  import opened Wrappers
  import opened Strings

  type UserId = string
  type Alias = string

  datatype Row = Row(alias: Alias, user: UserId)

  type Table = seq<Row>

  const MAX_ATTEMPTS := 5
  const ALIAS_LENGTH := 16

  type Attempt = k: nat | k < MAX_ATTEMPTS

  /** How candidates depend on the user and the attempt is left open. */
  type Generator = (UserId, Attempt) -> Alias

  /** A SHA-256 digest in base 32 without padding has 52 characters. */
  predicate IsDigest(d: string) {
    |d| == 52 && forall i :: 0 <= i < |d| ==> 'A' <= d[i] <= 'Z' || '2' <= d[i] <= '7'
  }

  function CandidateBase(user: UserId, attempt: Attempt): string {
    if attempt == 0 then user else user + "#" + [('0' as int + attempt) as char]
  }

  /** The generator in use, for a given hash: the first 16 characters of the digest, in lower case. */
  function Candidates(hash: string -> string): Generator {
    (user: UserId, attempt: Attempt) => Shortened(hash(CandidateBase(user, attempt)))
  }

  /** The first candidate is made from the user id alone, and no two attempts for a user hash the same text. */
  lemma AttemptsHashDifferentTexts(hash: string -> string, user: UserId, a: Attempt, b: Attempt)
    ensures CandidateBase(user, 0) == user && Candidates(hash)(user, a) == Shortened(hash(CandidateBase(user, a)))
    ensures CandidateBase(user, a) == CandidateBase(user, b) <==> a == b
    ensures user <= CandidateBase(user, a)
  {
    if a != 0 && b != 0 {
      assert CandidateBase(user, a)[|user| + 1] as int == '0' as int + a;
      assert CandidateBase(user, b)[|user| + 1] as int == '0' as int + b;
    }
  }

  function Shortened(digest: string): Alias {
    var alias := ToLower(digest);
    if |alias| > ALIAS_LENGTH then alias[..ALIAS_LENGTH] else alias
  }

  /** Trimming an alias before it is looked up does not change it. */
  predicate Clean(alias: Alias) {
    TrimSpace(alias) == alias != ""
  }

  lemma LowerAt(s: string, i: nat)
    requires i < |s|
    ensures ToLower(s)[i] == LowerChar(s[i])
  {
  }

  predicate IsAliasChar(c: char) {
    'a' <= c <= 'z' || '2' <= c <= '7'
  }

  lemma ShortenedDigest(d: string)
    requires IsDigest(d)
    ensures |Shortened(d)| == ALIAS_LENGTH && forall i :: 0 <= i < |Shortened(d)| ==> IsAliasChar(Shortened(d)[i])
    ensures Clean(Shortened(d))
  {
    var alias := Shortened(d);
    forall i | 0 <= i < |alias| ensures IsAliasChar(alias[i]) {
      LowerAt(d, i);
      assert alias[i] == LowerChar(d[i]);
    }
    AliasesAreClean(alias);
  }

  lemma AliasesAreClean(alias: Alias)
    requires alias != "" && forall i :: 0 <= i < |alias| ==> IsAliasChar(alias[i])
    ensures Clean(alias)
  {
    assert IsAliasChar(alias[0]) && IsAliasChar(alias[|alias| - 1]);
    TrimmedStays(alias);
  }

  function FindUser(rows: Table, user: UserId): (r: Option<nat>)
    ensures r.Some? ==> r.value < |rows| && rows[r.value].user == user
    ensures r.None? ==> forall i :: 0 <= i < |rows| ==> rows[i].user != user
  {
    if rows == [] then None
    else if rows[|rows| - 1].user == user then Some(|rows| - 1)
    else FindUser(rows[..|rows| - 1], user)
  }

  function FindAlias(rows: Table, alias: Alias): (r: Option<nat>)
    ensures r.Some? ==> r.value < |rows| && rows[r.value].alias == alias
    ensures r.None? ==> forall i :: 0 <= i < |rows| ==> rows[i].alias != alias
  {
    if rows == [] then None
    else if rows[|rows| - 1].alias == alias then Some(|rows| - 1)
    else FindAlias(rows[..|rows| - 1], alias)
  }

  predicate Distinct(rows: Table) {
    forall i, j :: 0 <= i < j < |rows| ==> rows[i].alias != rows[j].alias && rows[i].user != rows[j].user
  }

  /** An insert is refused when the alias or the user is there already. */
  predicate Fits(rows: Table, row: Row) {
    FindAlias(rows, row.alias).None? && FindUser(rows, row.user).None?
  }

  lemma NewRowIsFound(rows: Table, row: Row)
    ensures FindUser(rows + [row], row.user) == Some(|rows|)
  {
  }

  /** The first attempt from k on whose candidate nobody has. */
  function FirstFree(gen: Generator, rows: Table, user: UserId, k: nat): (r: Option<nat>)
    requires k <= MAX_ATTEMPTS
    ensures r.Some? ==> k <= r.value < MAX_ATTEMPTS && FindAlias(rows, gen(user, r.value)).None?
    ensures forall j :: k <= j < (if r.Some? then r.value else MAX_ATTEMPTS) ==> FindAlias(rows, gen(user, j)).Some?
    decreases MAX_ATTEMPTS - k
  {
    if k == MAX_ATTEMPTS then None
    else if FindAlias(rows, gen(user, k)).None? then Some(k)
    else FirstFree(gen, rows, user, k + 1)
  }

  function Resolved(rows: Table, alias: Alias): Option<UserId> {
    var row := FindAlias(rows, TrimSpace(alias));
    if TrimSpace(alias) == "" || row.None? then None else Some(rows[row.value].user)
  }

  class CCBillAliasService {
    const gen: Generator
    var rows: Table

    constructor (gen: Generator)
      ensures this.gen == gen && rows == []
    {
      this.gen := gen;
      rows := [];
    }

    method Insert(row: Row) returns (ok: bool)
      modifies this
      ensures ok <==> Fits(old(rows), row)
      ensures rows == if ok then old(rows) + [row] else old(rows)
      ensures Distinct(old(rows)) ==> Distinct(rows)
    {
      ok := FindAlias(rows, row.alias).None? && FindUser(rows, row.user).None?;
      if ok {
        rows := rows + [row];
      }
    }

    /** `rival` is the alias that another call inserts for the same user after our first lookup, if any. */
    method GetOrCreate(userId: UserId, rival: Option<Alias>) returns (alias: Option<Alias>)
      requires Distinct(rows)
      requires rival.Some? ==> FindAlias(rows, rival.value).None?
      modifies this
      ensures Distinct(rows) && old(rows) <= rows
      ensures var user := TrimSpace(userId); var known, free := FindUser(old(rows), user), FirstFree(gen, old(rows), user, 0);
              if user == "" then alias == None && rows == old(rows)
              else if known.Some? then alias == Some(old(rows)[known.value].alias) && rows == old(rows)
              else if rival.Some? then alias == rival && rows == old(rows) + [Row(rival.value, user)]
              else if free.None? then alias == None && rows == old(rows)
              else alias == Some(gen(user, free.value)) && rows == old(rows) + [Row(alias.value, user)]
    {
      var user := TrimSpace(userId);
      if user == "" {
        return None;
      }
      var known := FindUser(rows, user);
      if known.Some? {
        return Some(rows[known.value].alias);
      }
      if rival.Some? {
        NewRowIsFound(rows, Row(rival.value, user));
        var _ := Insert(Row(rival.value, user));
      }
      alias := TryCandidates(user);
    }

    /** Inserts the first candidate that is free, unless the user turns out to have an alias. */
    method TryCandidates(user: UserId) returns (alias: Option<Alias>)
      modifies this
      ensures var known, free := FindUser(old(rows), user), FirstFree(gen, old(rows), user, 0);
              if known.Some? then alias == Some(old(rows)[known.value].alias) && rows == old(rows)
              else if free.None? then alias == None && rows == old(rows)
              else alias == Some(gen(user, free.value)) && rows == old(rows) + [Row(gen(user, free.value), user)]
      ensures Distinct(old(rows)) ==> Distinct(rows)
    {
      for attempt := 0 to MAX_ATTEMPTS
        invariant rows == old(rows)
        invariant attempt > 0 ==> FindUser(rows, user).None?
        invariant FirstFree(gen, rows, user, 0) == FirstFree(gen, rows, user, attempt)
      {
        var candidate := gen(user, attempt);
        var ok := Insert(Row(candidate, user));
        if ok {
          return Some(candidate);
        }
        var known := FindUser(rows, user);
        if known.Some? {
          return Some(rows[known.value].alias);
        }
      }
      alias := None;
    }

    method Resolve(alias: Alias) returns (user: Option<UserId>)
      ensures user == Resolved(rows, alias)
      ensures user.None? <==> TrimSpace(alias) == "" || forall i :: 0 <= i < |rows| ==> rows[i].alias != TrimSpace(alias)
      ensures user.Some? ==> Row(TrimSpace(alias), user.value) in rows
    {
      if TrimSpace(alias) == "" {
        return None;
      }
      var row := FindAlias(rows, TrimSpace(alias));
      if row.None? {
        return None;
      }
      user := Some(rows[row.value].user);
    }
  }
}

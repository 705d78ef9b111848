/**
 Concurrent GetOrCreate calls, from the trimmed user id on. Each statement on the table is one
 step, and a call can be abandoned after any of them.
 */
module CCBillAliasRuns {
  import opened Wrappers
  import opened Strings
  import opened CCBillAliases

  type ClientId = nat

  datatype Client =
    | Idle
    | Trying(user: UserId, attempt: Attempt)
    | Conflicted(user: UserId, attempt: Attempt)

  datatype Entry =
    | Answer(user: UserId, alias: Alias)
    | Exhausted(user: UserId)

  datatype Sys = Sys(rows: Table, clients: map<ClientId, Client>, log: seq<Entry>)

  datatype Step =
    | Look(c: ClientId, user: UserId)
    | Insert(c: ClientId)
    | Reread(c: ClientId)
    | Abandon(c: ClientId)

  const START := Sys([], map[], [])

  function ClientOf(s: Sys, c: ClientId): Client {
    if c in s.clients then s.clients[c] else Idle
  }

  function Moved(s: Sys, c: ClientId, k: Client): Sys {
    s.(clients := s.clients[c := k])
  }

  function Done(s: Sys, c: ClientId, e: Entry): Sys {
    s.(clients := s.clients[c := Idle], log := s.log + [e])
  }

  function Apply(gen: Generator, s: Sys, step: Step): Sys {
    var k := ClientOf(s, step.c);
    match step
    case Look(c, user) =>
      var known := FindUser(s.rows, user);
      if !k.Idle? || user == "" then s
      else if known.Some? then Done(s, c, Answer(user, s.rows[known.value].alias))
      else Moved(s, c, Trying(user, 0))
    case Insert(c) =>
      if !k.Trying? then s else
      var row := Row(gen(k.user, k.attempt), k.user);
      if Fits(s.rows, row) then Done(s.(rows := s.rows + [row]), c, Answer(k.user, row.alias))
      else Moved(s, c, Conflicted(k.user, k.attempt))
    case Reread(c) =>
      if !k.Conflicted? then s else
      var known := FindUser(s.rows, k.user);
      if known.Some? then Done(s, c, Answer(k.user, s.rows[known.value].alias))
      else if k.attempt + 1 < MAX_ATTEMPTS then Moved(s, c, Trying(k.user, k.attempt + 1))
      else Done(s, c, Exhausted(k.user))
    case Abandon(c) => Moved(s, c, Idle)
  }

  function Exec(gen: Generator, s: Sys, steps: seq<Step>): Sys {
    if steps == [] then s else Apply(gen, Exec(gen, s, steps[..|steps| - 1]), steps[|steps| - 1])
  }

  /** Somebody else has the candidate. */
  predicate Taken(gen: Generator, rows: Table, user: UserId, attempt: Attempt) {
    exists i :: 0 <= i < |rows| && rows[i].alias == gen(user, attempt) && rows[i].user != user
  }

  predicate AllTaken(gen: Generator, rows: Table, user: UserId, attempts: nat)
    requires attempts <= MAX_ATTEMPTS
  {
    forall k: Attempt :: k < attempts ==> Taken(gen, rows, user, k)
  }

  predicate ClientIsSound(gen: Generator, s: Sys, c: ClientId) {
    match ClientOf(s, c)
    case Idle => true
    case Trying(user, attempt) => AllTaken(gen, s.rows, user, attempt)
    case Conflicted(user, attempt) =>
      && AllTaken(gen, s.rows, user, attempt)
      && (FindUser(s.rows, user).Some? || Taken(gen, s.rows, user, attempt))
  }

  predicate EntryIsSound(gen: Generator, rows: Table, e: Entry) {
    match e
    case Answer(user, alias) => Row(alias, user) in rows
    case Exhausted(user) => AllTaken(gen, rows, user, MAX_ATTEMPTS)
  }

  ghost predicate Inv(gen: Generator, s: Sys) {
    && Distinct(s.rows)
    && (forall c :: ClientIsSound(gen, s, c))
    && (forall e :: e in s.log ==> EntryIsSound(gen, s.rows, e))
  }

  lemma MoreRowsStillTaken(gen: Generator, rows: Table, more: Table, user: UserId, attempts: nat)
    requires rows <= more && attempts <= MAX_ATTEMPTS && AllTaken(gen, rows, user, attempts)
    ensures AllTaken(gen, more, user, attempts)
  {
    forall k: Attempt | k < attempts ensures Taken(gen, more, user, k) {
      assert Taken(gen, rows, user, k);
      var i :| 0 <= i < |rows| && rows[i].alias == gen(user, k) && rows[i].user != user;
      assert more[i] == rows[i];
    }
  }

  lemma TakenUpTo(gen: Generator, rows: Table, user: UserId, attempt: Attempt)
    requires AllTaken(gen, rows, user, attempt) && Taken(gen, rows, user, attempt)
    ensures AllTaken(gen, rows, user, attempt + 1)
  {
  }

  lemma RowsGrow(gen: Generator, s: Sys, step: Step)
    requires Inv(gen, s)
    ensures var t := Apply(gen, s, step);
            s.rows <= t.rows && s.log <= t.log && Distinct(t.rows)
  {
  }

  /** What the client that moves knows afterwards. */
  lemma MoverIsSound(gen: Generator, s: Sys, step: Step)
    requires Inv(gen, s)
    ensures ClientIsSound(gen, Apply(gen, s, step), step.c)
  {
    var k, l := ClientOf(s, step.c), ClientOf(Apply(gen, s, step), step.c);
    assert ClientIsSound(gen, s, step.c);
    if step.Insert? && k.Trying? && l.Conflicted? && FindUser(s.rows, k.user).None? {
      var i := FindAlias(s.rows, gen(k.user, k.attempt)).value;
      assert s.rows[i].user != k.user;
      assert Taken(gen, s.rows, k.user, k.attempt);
    }
    if step.Reread? && k.Conflicted? && l.Trying? {
      TakenUpTo(gen, s.rows, k.user, k.attempt);
    }
  }

  lemma OthersStaySound(gen: Generator, s: Sys, step: Step, c: ClientId)
    requires Inv(gen, s) && c != step.c
    ensures ClientIsSound(gen, Apply(gen, s, step), c)
  {
    var k, t := ClientOf(s, c), Apply(gen, s, step);
    assert ClientIsSound(gen, s, c);
    assert ClientOf(t, c) == k;
    RowsGrow(gen, s, step);
    if !k.Idle? {
      MoreRowsStillTaken(gen, s.rows, t.rows, k.user, k.attempt);
      if Taken(gen, s.rows, k.user, k.attempt) {
        var i :| 0 <= i < |s.rows| && s.rows[i].alias == gen(k.user, k.attempt) && s.rows[i].user != k.user;
        assert t.rows[i] == s.rows[i];
      }
      if FindUser(s.rows, k.user).Some? {
        assert t.rows[FindUser(s.rows, k.user).value].user == k.user;
      }
    }
  }

  lemma EntriesStaySound(gen: Generator, s: Sys, step: Step, e: Entry)
    requires Inv(gen, s) && e in Apply(gen, s, step).log
    ensures EntryIsSound(gen, Apply(gen, s, step).rows, e)
  {
    var k, t := ClientOf(s, step.c), Apply(gen, s, step);
    RowsGrow(gen, s, step);
    if e in s.log {
      assert EntryIsSound(gen, s.rows, e);
      if e.Exhausted? {
        MoreRowsStillTaken(gen, s.rows, t.rows, e.user, MAX_ATTEMPTS);
      } else {
        var i :| 0 <= i < |s.rows| && s.rows[i] == Row(e.alias, e.user);
        assert t.rows[i] == s.rows[i];
      }
    } else {
      assert ClientIsSound(gen, s, step.c);
      assert t.log[|s.log|] == e;
      match e
      case Answer(user, alias) =>
        var i := FindUser(t.rows, user).value;
        assert t.rows[i].user == user;
      case Exhausted(user) =>
        TakenUpTo(gen, s.rows, k.user, k.attempt);
    }
  }

  lemma StepKeepsInv(gen: Generator, s: Sys, step: Step)
    requires Inv(gen, s)
    ensures Inv(gen, Apply(gen, s, step))
  {
    RowsGrow(gen, s, step);
    forall c: ClientId ensures ClientIsSound(gen, Apply(gen, s, step), c) {
      if c == step.c {
        MoverIsSound(gen, s, step);
      } else {
        OthersStaySound(gen, s, step, c);
      }
    }
    forall e | e in Apply(gen, s, step).log ensures EntryIsSound(gen, Apply(gen, s, step).rows, e) {
      EntriesStaySound(gen, s, step, e);
    }
  }

  lemma {:induction false} RunKeepsInv(gen: Generator, steps: seq<Step>)
    ensures Inv(gen, Exec(gen, START, steps))
  {
    if steps != [] {
      RunKeepsInv(gen, steps[..|steps| - 1]);
      StepKeepsInv(gen, Exec(gen, START, steps[..|steps| - 1]), steps[|steps| - 1]);
    }
  }

  /** In every interleaving two answers have the same alias exactly when they are for the same user. */
  lemma AliasesAreStableAndInjective(gen: Generator, steps: seq<Step>, user1: UserId, alias1: Alias, user2: UserId, alias2: Alias)
    requires Answer(user1, alias1) in Exec(gen, START, steps).log && Answer(user2, alias2) in Exec(gen, START, steps).log
    ensures user1 == user2 <==> alias1 == alias2
  {
    RunKeepsInv(gen, steps);
    var s := Exec(gen, START, steps);
    assert EntryIsSound(gen, s.rows, Answer(user1, alias1)) && EntryIsSound(gen, s.rows, Answer(user2, alias2));
    var i :| 0 <= i < |s.rows| && s.rows[i] == Row(alias1, user1);
    var j :| 0 <= j < |s.rows| && s.rows[j] == Row(alias2, user2);
  }

  /** A returned alias resolves to its user for as long as the table lives: rows are never removed. */
  lemma AnswersResolveBack(gen: Generator, steps: seq<Step>, user: UserId, alias: Alias)
    requires Answer(user, alias) in Exec(gen, START, steps).log && Clean(alias)
    ensures Resolved(Exec(gen, START, steps).rows, alias) == Some(user)
  {
    RunKeepsInv(gen, steps);
    var rows := Exec(gen, START, steps).rows;
    assert EntryIsSound(gen, rows, Answer(user, alias));
    var i :| 0 <= i < |rows| && rows[i] == Row(alias, user);
    FindsIt(rows, i);
  }

  lemma FindsIt(rows: Table, i: nat)
    requires Distinct(rows) && i < |rows|
    ensures FindAlias(rows, rows[i].alias) == Some(i)
  {
  }

  /** Every answer is one of the user's own candidates. */
  lemma {:induction false} RowsAreCandidates(gen: Generator, steps: seq<Step>, i: nat)
    requires i < |Exec(gen, START, steps).rows|
    ensures var row := Exec(gen, START, steps).rows[i]; exists k: Attempt :: row.alias == gen(row.user, k)
  {
    var front := Exec(gen, START, steps[..|steps| - 1]);
    if i < |front.rows| {
      RowsAreCandidates(gen, steps[..|steps| - 1], i);
      assert Exec(gen, START, steps) == Apply(gen, front, steps[|steps| - 1]);
      assert Exec(gen, START, steps).rows[i] == front.rows[i];
    } else {
      var k := ClientOf(front, steps[|steps| - 1].c);
      assert Exec(gen, START, steps).rows[i] == Row(gen(k.user, k.attempt), k.user);
    }
  }

  /** With the generator in use, every answer resolves to the user it was given to. */
  lemma IssuedAliasesResolve(hash: string -> string, steps: seq<Step>, user: UserId, alias: Alias)
    requires forall text :: IsDigest(hash(text))
    requires Answer(user, alias) in Exec(Candidates(hash), START, steps).log
    ensures |alias| == ALIAS_LENGTH && Resolved(Exec(Candidates(hash), START, steps).rows, alias) == Some(user)
  {
    var gen := Candidates(hash);
    var rows := Exec(gen, START, steps).rows;
    RunKeepsInv(gen, steps);
    assert EntryIsSound(gen, rows, Answer(user, alias));
    var i :| 0 <= i < |rows| && rows[i] == Row(alias, user);
    RowsAreCandidates(gen, steps, i);
    var k: Attempt :| alias == gen(user, k);
    ShortenedDigest(hash(CandidateBase(user, k)));
    AnswersResolveBack(gen, steps, user, alias);
  }

  /** Exhaustion is reported only when other users have all five candidates. */
  lemma ExhaustionMeansAllTaken(gen: Generator, steps: seq<Step>, user: UserId, k: Attempt)
    requires Exhausted(user) in Exec(gen, START, steps).log
    ensures var rows := Exec(gen, START, steps).rows;
            exists i :: 0 <= i < |rows| && rows[i].alias == gen(user, k) && rows[i].user != user
  {
    RunKeepsInv(gen, steps);
    var s := Exec(gen, START, steps);
    assert EntryIsSound(gen, s.rows, Exhausted(user));
    assert Taken(gen, s.rows, user, k);
  }
}

/**
 The cache against a plain timed map. Run one call at a time the two cannot be told apart. When
 calls interleave, a Get may answer "absent" for a value that was just set, because another Get
 deletes late, but a value it does return is the last one set when it read, and was not expired.
 */
module MemoryCacheRuns {
  import opened GoInt
  import opened Wrappers
  import opened MemoryCache

  // ---- one call at a time

  datatype Call =
    | Get(key: string)
    | Set(key: string, value: string, ttl: Time)
    | Delete(key: string)
    | Clear
    | Cleanup

  /** A call, and the time that has passed since the call before. */
  datatype Timed = Timed(call: Call, after: nat)

  function AfterCall(items: Items, call: Call, now: Time): Items {
    match call
    case Get(key) => if key in items && Expired(items[key], now) then items - {key} else items
    case Set(key, value, ttl) => items[key := NewItem(value, ttl, now)]
    case Delete(key) => items - {key}
    case Clear => map[]
    case Cleanup => Swept(items, now)
  }

  /** The timed map forgets only what is deleted or cleared; expiry is a matter of looking. */
  function AfterPlainCall(items: Items, call: Call, now: Time): Items {
    match call
    case Set(key, value, ttl) => items[key := NewItem(value, ttl, now)]
    case Delete(key) => items - {key}
    case Clear => map[]
    case _ => items
  }

  /** The cache and the timed map side by side. */
  datatype Pair = Pair(cache: Items, plain: Items, clock: Time)

  function Run(calls: seq<Timed>): Pair {
    if calls == [] then Pair(map[], map[], 0) else
    var p, t := Run(calls[..|calls| - 1]), calls[|calls| - 1];
    var now := p.clock + t.after;
    Pair(AfterCall(p.cache, t.call, now), AfterPlainCall(p.plain, t.call, now), now)
  }

  /** The cache holds a part of the timed map, and misses only what has expired. */
  ghost predicate Agrees(p: Pair) {
    && (forall k :: k in p.cache ==> k in p.plain && p.cache[k] == p.plain[k])
    && (forall k :: k in p.plain && k !in p.cache ==> Expired(p.plain[k], p.clock))
  }

  lemma {:induction false} RunAgrees(calls: seq<Timed>)
    ensures Agrees(Run(calls))
  {
    if calls != [] {
      RunAgrees(calls[..|calls| - 1]);
    }
  }

  /** After any sequence of calls the cache answers every Get, now or later, as the timed map does. */
  lemma {:induction false} CacheIsTimedMap(calls: seq<Timed>, key: string, now: Time)
    requires now >= Run(calls).clock
    ensures Lookup(Run(calls).cache, key, now) == Lookup(Run(calls).plain, key, now)
  {
    RunAgrees(calls);
  }

  /** The call sets or forgets this key. */
  predicate Touches(call: Call, key: string) {
    call.Clear? || ((call.Set? || call.Delete?) && call.key == key)
  }

  ghost predicate Untouched(calls: seq<Timed>, key: string) {
    forall i :: 0 <= i < |calls| ==> !Touches(calls[i].call, key)
  }

  lemma {:induction false} UntouchedStays(first: seq<Timed>, rest: seq<Timed>, key: string)
    requires Untouched(rest, key)
    ensures key in Run(first + rest).plain <==> key in Run(first).plain
    ensures key in Run(first).plain ==> Run(first + rest).plain[key] == Run(first).plain[key]
    ensures Run(first).clock <= Run(first + rest).clock
  {
    if rest == [] {
      assert first + rest == first;
    } else {
      var front, last := rest[..|rest| - 1], rest[|rest| - 1];
      assert (first + rest)[..|first + rest| - 1] == first + front;
      UntouchedStays(first, front, key);
      assert !Touches(last.call, key);
    }
  }

  /**
   What is set is answered from then on, whatever calls come in between that leave the key alone:
   with a positive ttl until exactly that time has passed, and for good with any other.
   */
  lemma SetIsAnsweredForItsTtl(before: seq<Timed>, key: string, value: string, ttl: Time, pause: nat, rest: seq<Timed>, now: Time)
    requires Untouched(rest, key)
    requires now >= Run(before + [Timed(Set(key, value, ttl), pause)] + rest).clock
    ensures var setAt := Run(before).clock + pause;
            Lookup(Run(before + [Timed(Set(key, value, ttl), pause)] + rest).cache, key, now)
            == if ttl <= 0 || now <= setAt + ttl then Some(value) else None
  {
    var first := before + [Timed(Set(key, value, ttl), pause)];
    assert first[..|first| - 1] == before;
    UntouchedStays(first, rest, key);
    CacheIsTimedMap(first + rest, key, now);
  }

  /** And what was never set, or was forgotten since, is not answered. */
  lemma ForgottenIsAbsent(before: seq<Timed>, key: string, forget: Timed, rest: seq<Timed>, now: Time)
    requires Untouched(rest, key) && (forget.call == Delete(key) || forget.call == Clear)
    requires now >= Run(before + [forget] + rest).clock
    ensures Lookup(Run(before + [forget] + rest).cache, key, now) == None
    ensures now >= Run(rest).clock ==> Lookup(Run(rest).cache, key, now) == None
  {
    var first := before + [forget];
    assert first[..|first| - 1] == before;
    UntouchedStays(first, rest, key);
    CacheIsTimedMap(first + rest, key, now);
    assert [] + rest == rest;
    UntouchedStays([], rest, key);
    if now >= Run(rest).clock {
      CacheIsTimedMap(rest, key, now);
    }
  }

  /** A cleanup pass changes no answer, now or later. */
  lemma CleanupIsInvisible(items: Items, sweptAt: Time, key: string, now: Time)
    requires now >= sweptAt
    ensures Lookup(Swept(items, sweptAt), key, now) == Lookup(items, key, now)
  {
  }

  // ---- interleaved calls

  type ClientId = nat

  /** A Get in progress: it has read, then checks the expiry, then answers or deletes. */
  datatype Client =
    | Idle
    | HasRead(key: string, item: Item, lastSet: Option<Item>)
    | MustDelete(key: string)

  /** An answer, with what the key was last set to when it was read, and the time of the check. */
  datatype Answer = Answer(item: Item, lastSet: Option<Item>, checkedAt: Time)

  /** `lastSet` records what each key was last set to; only a Delete or a Clear call forgets it. */
  datatype Sys = Sys(items: Items, lastSet: Items, clients: map<ClientId, Client>, answers: seq<Answer>, clock: Time)

  datatype Step =
    | Read(c: ClientId, key: string)
    | Check(c: ClientId)
    | LateDelete(c: ClientId)
    | Write(key: string, value: string, ttl: Time)
    | Remove(key: string)
    | RemoveAll
    | Sweep
    | Advance(elapsed: nat)

  const START := Sys(map[], map[], map[], [], 0)

  function ClientOf(s: Sys, c: ClientId): Client {
    if c in s.clients then s.clients[c] else Idle
  }

  function LastSet(s: Sys, key: string): Option<Item> {
    if key in s.lastSet then Some(s.lastSet[key]) else None
  }

  function Apply(s: Sys, step: Step): Sys {
    match step
    case Read(c, key) =>
      if ClientOf(s, c).Idle? && key in s.items then
        s.(clients := s.clients[c := HasRead(key, s.items[key], LastSet(s, key))])
      else s
    case Check(c) =>
      var k := ClientOf(s, c);
      if !k.HasRead? then s
      else if Expired(k.item, s.clock) then s.(clients := s.clients[c := MustDelete(k.key)])
      else s.(clients := s.clients[c := Idle], answers := s.answers + [Answer(k.item, k.lastSet, s.clock)])
    case LateDelete(c) =>
      var k := ClientOf(s, c);
      if k.MustDelete? then s.(items := s.items - {k.key}, clients := s.clients[c := Idle]) else s
    case Write(key, value, ttl) =>
      var item := NewItem(value, ttl, s.clock);
      s.(items := s.items[key := item], lastSet := s.lastSet[key := item])
    case Remove(key) => s.(items := s.items - {key}, lastSet := s.lastSet - {key})
    case RemoveAll => s.(items := map[], lastSet := map[])
    case Sweep => s.(items := Swept(s.items, s.clock))
    case Advance(elapsed) => s.(clock := s.clock + elapsed)
  }

  function Exec(s: Sys, steps: seq<Step>): Sys {
    if steps == [] then s else Apply(Exec(s, steps[..|steps| - 1]), steps[|steps| - 1])
  }

  ghost predicate ItemsAreLastSet(s: Sys) {
    forall key :: key in s.items ==> LastSet(s, key) == Some(s.items[key])
  }

  predicate Fresh(a: Answer) {
    a.lastSet == Some(a.item) && !Expired(a.item, a.checkedAt)
  }

  ghost predicate Inv(s: Sys) {
    && ItemsAreLastSet(s)
    && (forall c :: ClientOf(s, c).HasRead? ==> ClientOf(s, c).lastSet == Some(ClientOf(s, c).item))
    && (forall a :: a in s.answers ==> Fresh(a))
  }

  function ClientAfter(s: Sys, step: Step, c: ClientId): Client {
    var k := ClientOf(s, c);
    match step
    case Read(d, key) => if d == c && k.Idle? && key in s.items then HasRead(key, s.items[key], LastSet(s, key)) else k
    case Check(d) => if d != c || !k.HasRead? then k else if Expired(k.item, s.clock) then MustDelete(k.key) else Idle
    case LateDelete(d) => if d == c && k.MustDelete? then Idle else k
    case _ => k
  }

  lemma ClientsAfter(s: Sys, step: Step)
    ensures forall c :: ClientOf(Apply(s, step), c) == ClientAfter(s, step, c)
  {
  }

  lemma StepKeepsInv(s: Sys, step: Step)
    requires Inv(s)
    ensures Inv(Apply(s, step))
  {
    ClientsAfter(s, step);
  }

  lemma {:induction false} RunKeepsInv(steps: seq<Step>)
    ensures Inv(Exec(START, steps))
  {
    if steps != [] {
      RunKeepsInv(steps[..|steps| - 1]);
      StepKeepsInv(Exec(START, steps[..|steps| - 1]), steps[|steps| - 1]);
    }
  }

  /**
   In every interleaving each answer is the item its key was last set to when the Get read it, and
   it had not expired when the Get checked it.
   */
  lemma AnswersAreFresh(steps: seq<Step>, i: nat)
    requires i < |Exec(START, steps).answers|
    ensures var a := Exec(START, steps).answers[i]; a.lastSet == Some(a.item) && !Expired(a.item, a.checkedAt)
  {
    RunKeepsInv(steps);
    assert Exec(START, steps).answers[i] in Exec(START, steps).answers;
  }

  /** Everything that was set and not deleted is there, unless it has expired. */
  ghost predicate NothingLost(s: Sys) {
    forall key :: key in s.lastSet && !Expired(s.lastSet[key], s.clock) ==> key in s.items
  }

  /** The step is a late delete that takes an item set after the Get had read. */
  predicate TakesLiveItem(s: Sys, step: Step) {
    && step.LateDelete? && ClientOf(s, step.c).MustDelete?
    && ClientOf(s, step.c).key in s.items && !Expired(s.items[ClientOf(s, step.c).key], s.clock)
  }

  /** No step loses a live item except such a late delete, which always does. */
  lemma OnlyLateDeleteLoses(s: Sys, step: Step)
    requires Inv(s) && NothingLost(s)
    ensures NothingLost(Apply(s, step)) <==> !TakesLiveItem(s, step)
  {
    var t := Apply(s, step);
    if TakesLiveItem(s, step) {
      var key := ClientOf(s, step.c).key;
      assert key in t.lastSet && !Expired(t.lastSet[key], t.clock) && key !in t.items;
    }
  }

  /** And there is a run in which it does: a Set between a Get's check and its delete is lost. */
  lemma LateDeleteLosesSet(key: string, older: string, newer: string, ttl: Time)
    requires ttl > 0
    ensures var t := Exec(START, [Write(key, older, ttl), Advance(ttl + 1), Read(0, key), Check(0), Write(key, newer, ttl), LateDelete(0)]);
            && LastSet(t, key) == Some(NewItem(newer, ttl, t.clock))
            && Lookup(t.items, key, t.clock) == None
            && Lookup(t.lastSet, key, t.clock) == Some(newer)
  {
    var steps := [Write(key, older, ttl), Advance(ttl + 1), Read(0, key), Check(0), Write(key, newer, ttl), LateDelete(0)];
    var s1 := Apply(START, steps[0]);
    var s2 := Apply(s1, steps[1]);
    var s3 := Apply(s2, steps[2]);
    var s4 := Apply(s3, steps[3]);
    var s5 := Apply(s4, steps[4]);
    assert Exec(START, steps[..0]) == START;
    forall i: nat | i < 6 ensures steps[..i + 1][..i] == steps[..i] && steps[..i + 1][i] == steps[i] {
    }
    assert Exec(START, steps[..1]) == s1;
    assert Exec(START, steps[..2]) == s2;
    assert Exec(START, steps[..3]) == s3;
    assert Exec(START, steps[..4]) == s4;
    assert Exec(START, steps[..5]) == s5;
    assert ClientOf(s4, 0) == MustDelete(key);
    assert steps[..6] == steps;
  }
}

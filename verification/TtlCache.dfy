/**
 A look-aside cache with expiring entries, as both Redis decorators use it:
 read; on a miss ask the inner source, then write the answer with a time to live.
 Any number of lookups interleave, fills overlap and overwrite each other, and
 entries may be evicted at any time.
 */
module TtlCache {
  import opened Wrappers

  /** What a decorator adds: its key, the time to live it gives an answer observed
      at some time, what the inner source may answer, and the longest delay from
      observing an answer to having written it. */
  datatype Design<!Q, !K, !V> = Design(
    keyOf: Q -> K,
    ttlOf: (V, real) -> int,
    source: (Q, V, real) -> bool,
    maxDelay: real)

  /** What the inner source answered, to which query, and when. */
  datatype Answer<Q, V> = Answer(query: Q, value: V, at: real)

  /** A stored entry. Of its answer, the cache itself keeps only the value. */
  datatype Stored<Q, V> = Stored(answer: Answer<Q, V>, expiresAt: real)

  datatype Lookup<Q, V> = Asking(query: Q) | Holding(answer: Answer<Q, V>)

  /** A lookup that returned `answer.value`, when, and whether from the cache. */
  datatype Returned<Q, V> = Returned(query: Q, at: real, hit: bool, answer: Answer<Q, V>)

  datatype Event<Q, K, V> =
    | Start(task: nat, query: Q)
    | Observe(task: nat, value: V)          // the inner source answers; the time to live is fixed
    | Finish(task: nat)                     // the write is done, the lookup returns
    | Evict(key: K)
    | Tick(elapsed: real)

  /** `asked`, `answered` and `returned` are history. */
  datatype State<Q, K, V> = State(
    store: map<K, Stored<Q, V>>,
    now: real,
    lookups: map<nat, Lookup<Q, V>>,
    asked: seq<Q>,
    answered: seq<Answer<Q, V>>,
    returned: seq<Returned<Q, V>>)

  function Initial<Q, K(==), V>(now: real): State<Q, K, V> {
    State(map[], now, map[], [], [], [])
  }

  predicate Live<Q, K(==), V>(s: State<Q, K, V>, key: K) {
    key in s.store && s.now < s.store[key].expiresAt
  }

  function Step<Q, K(==), V>(d: Design<Q, K, V>, s: State<Q, K, V>, e: Event<Q, K, V>): Option<State<Q, K, V>> {
    match e
    case Start(t, query) =>
      var u := s.(asked := s.asked + [query]);
      if t in s.lookups then None
      else if Live(s, d.keyOf(query)) then
        Some(u.(returned := s.returned + [Returned(query, s.now, true, s.store[d.keyOf(query)].answer)]))
      else Some(u.(lookups := s.lookups[t := Asking(query)]))
    case Observe(t, value) =>
      if t in s.lookups && s.lookups[t].Asking? && d.source(s.lookups[t].query, value, s.now) then
        var answer := Answer(s.lookups[t].query, value, s.now);
        Some(s.(lookups := s.lookups[t := Holding(answer)], answered := s.answered + [answer]))
      else None
    case Finish(t) =>
      if t in s.lookups && s.lookups[t].Holding? && s.now <= s.lookups[t].answer.at + d.maxDelay
      then Some(Write(d, s, s.lookups[t].answer).(lookups := s.lookups - {t})) else None
    case Evict(key) => Some(s.(store := s.store - {key}))
    case Tick(elapsed) => if elapsed < 0.0 then None else Some(s.(now := s.now + elapsed))
  }

  function Write<Q, K(==), V>(d: Design<Q, K, V>, s: State<Q, K, V>, a: Answer<Q, V>): State<Q, K, V> {
    var ttl := d.ttlOf(a.value, a.at);
    s.(store := if ttl > 0 then s.store[d.keyOf(a.query) := Stored(a, s.now + ttl as real)] else s.store,
       returned := s.returned + [Returned(a.query, s.now, false, a)])
  }

  function Run<Q, K(==), V>(d: Design<Q, K, V>, s: State<Q, K, V>, es: seq<Event<Q, K, V>>): Option<State<Q, K, V>>
    decreases |es|
  {
    if es == [] then Some(s)
    else
      match Run(d, s, es[..|es| - 1])
      case None => None
      case Some(t) => Step(d, t, es[|es| - 1])
  }

  /* ---- What every run keeps ---- */

  ghost predicate AnswerOk<Q, K, V>(d: Design<Q, K, V>, s: State<Q, K, V>, a: Answer<Q, V>) {
    a in s.answered && a.query in s.asked && d.source(a.query, a.value, a.at) && a.at <= s.now
  }

  ghost predicate StoredOk<Q, K, V>(d: Design<Q, K, V>, s: State<Q, K, V>, key: K, c: Stored<Q, V>) {
    && AnswerOk(d, s, c.answer)
    && d.keyOf(c.answer.query) == key
    && d.ttlOf(c.answer.value, c.answer.at) > 0
    && c.expiresAt <= c.answer.at + d.maxDelay + d.ttlOf(c.answer.value, c.answer.at) as real
  }

  /** An answer comes from the inner source, for a query with the same key, and is
      no older than the delay of its fill plus, from the cache, its time to live. */
  ghost predicate ReturnedOk<Q, K, V>(d: Design<Q, K, V>, s: State<Q, K, V>, r: Returned<Q, V>) {
    && AnswerOk(d, s, r.answer)
    && r.query in s.asked
    && d.keyOf(r.answer.query) == d.keyOf(r.query)
    && r.answer.at <= r.at
    && (if r.hit
        then d.ttlOf(r.answer.value, r.answer.at) > 0
          && r.at < r.answer.at + d.maxDelay + d.ttlOf(r.answer.value, r.answer.at) as real
        else r.answer.query == r.query && r.at <= r.answer.at + d.maxDelay)
  }

  ghost predicate LookupOk<Q, K, V>(d: Design<Q, K, V>, s: State<Q, K, V>, l: Lookup<Q, V>) {
    match l
    case Asking(query) => query in s.asked
    case Holding(answer) => AnswerOk(d, s, answer)
  }

  ghost predicate Invariant<Q, K, V>(d: Design<Q, K, V>, s: State<Q, K, V>) {
    && (forall key :: key in s.store ==> StoredOk(d, s, key, s.store[key]))
    && (forall i :: 0 <= i < |s.returned| ==> ReturnedOk(d, s, s.returned[i]))
    && (forall t :: t in s.lookups ==> LookupOk(d, s, s.lookups[t]))
  }

  /** Histories only grow and the clock never runs back. */
  ghost predicate Later<Q, K, V>(s: State<Q, K, V>, u: State<Q, K, V>) {
    s.asked <= u.asked && s.answered <= u.answered && s.now <= u.now
  }

  lemma StillOk<Q, K, V>(d: Design<Q, K, V>, s: State<Q, K, V>, u: State<Q, K, V>)
    requires Later(s, u)
    ensures forall key, c :: StoredOk(d, s, key, c) ==> StoredOk(d, u, key, c)
    ensures forall r :: ReturnedOk(d, s, r) ==> ReturnedOk(d, u, r)
    ensures forall l :: LookupOk(d, s, l) ==> LookupOk(d, u, l)
  {
    assert forall a :: AnswerOk(d, s, a) ==> AnswerOk(d, u, a);
  }

  lemma StepKeepsInvariant<Q, K, V>(d: Design<Q, K, V>, s: State<Q, K, V>, e: Event<Q, K, V>)
    requires Invariant(d, s) && Step(d, s, e).Some?
    ensures Invariant(d, Step(d, s, e).value)
  {
    hide StoredOk, ReturnedOk, LookupOk;
    var u := Step(d, s, e).value;
    StillOk(d, s, u);
    match e
    case Start(t, query) => StartKeeps(d, s, t, query);
    case Observe(t, value) => ObserveKeeps(d, s, t, value);
    case Finish(t) => FinishKeeps(d, s, t);
    case Evict(_) =>
    case Tick(_) =>
  }

  lemma StartKeeps<Q, K, V>(d: Design<Q, K, V>, s: State<Q, K, V>, t: nat, query: Q)
    requires Invariant(d, s) && Step(d, s, Start(t, query)).Some?
    ensures var u := Step(d, s, Start(t, query)).value;
      if Live(s, d.keyOf(query)) then ReturnedOk(d, u, u.returned[|s.returned|]) else LookupOk(d, u, u.lookups[t])
  {
    var u := Step(d, s, Start(t, query)).value;
    assert query == u.asked[|s.asked|];
    if Live(s, d.keyOf(query)) {
      assert StoredOk(d, s, d.keyOf(query), s.store[d.keyOf(query)]);
    }
  }

  lemma ObserveKeeps<Q, K, V>(d: Design<Q, K, V>, s: State<Q, K, V>, t: nat, value: V)
    requires Invariant(d, s) && Step(d, s, Observe(t, value)).Some?
    ensures var u := Step(d, s, Observe(t, value)).value; LookupOk(d, u, u.lookups[t])
  {
    var u := Step(d, s, Observe(t, value)).value;
    assert LookupOk(d, s, s.lookups[t]);
    assert u.lookups[t].answer == u.answered[|s.answered|];
  }

  lemma FinishKeeps<Q, K, V>(d: Design<Q, K, V>, s: State<Q, K, V>, t: nat)
    requires Invariant(d, s) && Step(d, s, Finish(t)).Some?
    ensures var u := Step(d, s, Finish(t)).value; var key := d.keyOf(s.lookups[t].answer.query);
      && ReturnedOk(d, u, u.returned[|s.returned|])
      && (key in u.store ==> StoredOk(d, u, key, u.store[key]))
  {
    assert LookupOk(d, s, s.lookups[t]);
  }

  /** Every interleaving of lookups keeps the bound on every answer it returns. */
  lemma {:induction false} EveryAnswerIsBounded<Q, K, V>(d: Design<Q, K, V>, start: real, es: seq<Event<Q, K, V>>)
    requires Run(d, Initial<Q, K, V>(start), es).Some?
    ensures Invariant(d, Run(d, Initial<Q, K, V>(start), es).value)
    decreases |es|
  {
    if es != [] {
      hide Invariant, Step;
      EveryAnswerIsBounded(d, start, es[..|es| - 1]);
      StepKeepsInvariant(d, Run(d, Initial<Q, K, V>(start), es[..|es| - 1]).value, es[|es| - 1]);
    }
  }

  lemma RunThen<Q, K, V>(d: Design<Q, K, V>, s: State<Q, K, V>, es: seq<Event<Q, K, V>>, e: Event<Q, K, V>)
    requires Run(d, s, es).Some?
    ensures Run(d, s, es + [e]) == Step(d, Run(d, s, es).value, e)
  {
    hide Step;
    assert (es + [e])[..|es|] == es;
  }

  lemma RunNothing<Q, K, V>(d: Design<Q, K, V>, s: State<Q, K, V>)
    ensures Run(d, s, []) == Some(s)
  {
  }

  /* ---- One lookup that nothing interrupts ---- */

  /** The events of a miss: the key is not live, the inner source answers, and the
      write is done `delay` later. */
  function Miss<Q, K, V>(task: nat, query: Q, value: V, delay: real): seq<Event<Q, K, V>> {
    [Start(task, query), Observe(task, value), Tick(delay), Finish(task)]
  }

  /** The state just before the write of that lookup. */
  function Answered<Q, K(==), V>(s: State<Q, K, V>, a: Answer<Q, V>, delay: real): State<Q, K, V> {
    s.(now := s.now + delay, asked := s.asked + [a.query], answered := s.answered + [a])
  }

  lemma MissSteps<Q, K, V>(d: Design<Q, K, V>, s: State<Q, K, V>, t: nat, query: Q, value: V, delay: real)
    returns (s1: State<Q, K, V>, s2: State<Q, K, V>, s3: State<Q, K, V>)
    requires t !in s.lookups && !Live(s, d.keyOf(query))
    requires d.source(query, value, s.now) && 0.0 <= delay <= d.maxDelay
    ensures Step(d, s, Start(t, query)) == Some(s1)
    ensures Step(d, s1, Observe(t, value)) == Some(s2)
    ensures Step(d, s2, Tick(delay)) == Some(s3)
    ensures var a := Answer(query, value, s.now); Step(d, s3, Finish(t)) == Some(Write(d, Answered(s, a, delay), a))
  {
    var a := Answer(query, value, s.now);
    s1 := s.(asked := s.asked + [query], lookups := s.lookups[t := Asking(query)]);
    s2 := s1.(lookups := s.lookups[t := Holding(a)], answered := s.answered + [a]);
    s3 := s2.(now := s.now + delay);
    assert s1.lookups[t := Holding(a)] == s2.lookups;
    assert s3.lookups - {t} == s.lookups;
  }

  lemma MissRuns<Q, K, V>(d: Design<Q, K, V>, s: State<Q, K, V>, t: nat, query: Q, value: V, delay: real)
    requires t !in s.lookups && !Live(s, d.keyOf(query))
    requires d.source(query, value, s.now) && 0.0 <= delay <= d.maxDelay
    ensures var a := Answer(query, value, s.now);
      Run(d, s, Miss(t, query, value, delay)) == Some(Write(d, Answered(s, a, delay), a))
  {
    hide Step, Write, Live, Run, Answered;
    var s1, s2, s3 := MissSteps(d, s, t, query, value, delay);
    RunNothing(d, s);
    var one: seq<Event<Q, K, V>> := [] + [Start(t, query)];
    RunThen(d, s, [], Start(t, query));
    var two := one + [Observe(t, value)];
    RunThen(d, s, one, Observe(t, value));
    var three := two + [Tick(delay)];
    RunThen(d, s, two, Tick(delay));
    RunThen(d, s, three, Finish(t));
    assert three + [Finish(t)] == Miss(t, query, value, delay);
  }

  /** The slowest fill, then a hit `wait` later. */
  function SlowFillThenHit<Q, K, V>(d: Design<Q, K, V>, query: Q, value: V, wait: real): seq<Event<Q, K, V>> {
    Miss(0, query, value, d.maxDelay) + [Tick(wait)] + [Start(1, query)]
  }

  /** Any answer with a positive time to live can be served from the cache as late
      as just before the delay of its fill plus that time to live: the bound is tight. */
  lemma SlowFillIsServedLate<Q, K, V>(d: Design<Q, K, V>, query: Q, value: V, start: real, wait: real)
    requires d.source(query, value, start) && 0.0 <= d.maxDelay
    requires 0.0 <= wait < d.ttlOf(value, start) as real
    ensures var r := Run(d, Initial<Q, K, V>(start), SlowFillThenHit(d, query, value, wait));
      && r.Some? && |r.value.returned| == 2
      && r.value.returned[1] == Returned(query, start + d.maxDelay + wait, true, Answer(query, value, start))
  {
    hide Run;
    var s := Initial<Q, K, V>(start);
    var fill := Miss<Q, K, V>(0, query, value, d.maxDelay);
    MissRuns(d, s, 0, query, value, d.maxDelay);
    RunThen(d, s, fill, Tick(wait));
    RunThen(d, s, fill + [Tick(wait)], Start(1, query));
  }

  /* ---- What Redis holds ---- */

  datatype Entry = Entry(text: string, expiresAt: real)

  /** `SET key text EX ttl`, skipped when there is no time to live. */
  function Stores(redis: map<string, Entry>, key: string, text: string, ttl: int, now: real): map<string, Entry> {
    if ttl > 0 then redis[key := Entry(text, now + ttl as real)] else redis
  }

  /** Redis holds the store, each answer as its text. */
  ghost predicate Mirrors<Q, V>(redis: map<string, Entry>, store: map<string, Stored<Q, V>>, text: V -> string) {
    && redis.Keys == store.Keys
    && forall k :: k in redis ==> redis[k] == Entry(text(store[k].answer.value), store[k].expiresAt)
  }

  lemma HitRuns<Q, V>(d: Design<Q, string, V>, redis: map<string, Entry>, s: State<Q, string, V>, text: V -> string,
                      t: nat, query: Q)
    returns (u: State<Q, string, V>)
    requires Mirrors(redis, s.store, text) && t !in s.lookups
    requires var key := d.keyOf(query); key in redis && s.now < redis[key].expiresAt
    ensures Run(d, s, [Start(t, query)]) == Some(u)
    ensures Mirrors(redis, u.store, text) && u.lookups == s.lookups
    ensures |u.returned| == |s.returned| + 1 && u.returned[|s.returned|].query == query
    ensures text(u.returned[|s.returned|].answer.value) == redis[d.keyOf(query)].text
  {
    RunThen(d, s, [], Start(t, query));
    u := Step(d, s, Start(t, query)).value;
  }

  lemma MissStores<Q, V>(d: Design<Q, string, V>, redis: map<string, Entry>, s: State<Q, string, V>, text: V -> string,
                         t: nat, query: Q, value: V, delay: real)
    returns (u: State<Q, string, V>)
    requires Mirrors(redis, s.store, text) && t !in s.lookups
    requires var key := d.keyOf(query); !(key in redis && s.now < redis[key].expiresAt)
    requires d.source(query, value, s.now) && 0.0 <= delay <= d.maxDelay
    ensures Run(d, s, Miss(t, query, value, delay)) == Some(u)
    ensures Mirrors(Stores(redis, d.keyOf(query), text(value), d.ttlOf(value, s.now), s.now + delay), u.store, text)
    ensures u.lookups == s.lookups
    ensures |u.returned| == |s.returned| + 1 && u.returned[|s.returned|].query == query
    ensures u.returned[|s.returned|].answer.value == value
  {
    hide Run, Step;
    MissRuns(d, s, t, query, value, delay);
    u := Run(d, s, Miss(t, query, value, delay)).value;
  }
}

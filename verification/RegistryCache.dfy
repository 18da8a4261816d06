/**
 The registry cache: how stale a lookup, positive or negative, can be.
 `held(id, t)` is what the inner registry holds for `id` at time `t`.
 */
module RegistryCache {
  import opened Wrappers
  import opened Domain
  import opened TtlCache

  datatype Config = Config(held: (string, real) -> Option<RegisteredAgent>, ttl: int, maxDelay: real)

  type Answered = Option<RegisteredAgent>

  const KEY_PREFIX := "oac:registry:"

  function CacheKey(id: string): string { KEY_PREFIX + id }

  function CacheDesign(c: Config): Design<string, string, Answered> {
    Design(
      (id: string) => CacheKey(id),
      (agent: Answered, now: real) => c.ttl,
      (id: string, agent: Answered, now: real) => agent == c.held(id, now),
      c.maxDelay)
  }

  function After(c: Config, start: real, es: seq<Event<string, string, Answered>>)
    : Option<State<string, string, Answered>>
  {
    Run(CacheDesign(c), Initial(start), es)
  }

  /** The `i`-th lookup of a run returned. */
  predicate Returns(c: Config, start: real, es: seq<Event<string, string, Answered>>, i: nat) {
    After(c, start, es).Some? && i < |After(c, start, es).value.returned|
  }

  function Lookup(c: Config, start: real, es: seq<Event<string, string, Answered>>, i: nat): Returned<string, Answered>
    requires Returns(c, start, es, i)
  {
    After(c, start, es).value.returned[i]
  }

  /** The inner registry held the answer, for the very agent asked about, at a moment
      at most `bound` before it was returned. */
  ghost predicate WithinBound(c: Config, r: Returned<string, Answered>, bound: real) {
    exists t: real :: r.at - bound < t <= r.at && r.answer.value == c.held(r.query, t)
  }

  /** Over any interleaving, with fills overwriting each other, every lookup is
      stale by less than the time to live plus the longest fill. */
  lemma LookupsAreFreshEnough(c: Config, start: real, es: seq<Event<string, string, Answered>>, i: nat)
    requires 0 < c.ttl && Returns(c, start, es, i)
    ensures WithinBound(c, Lookup(c, start, es, i), c.ttl as real + c.maxDelay)
  {
    hide Run;
    EveryAnswerIsBounded(CacheDesign(c), start, es);
    var s := After(c, start, es).value;
    var r := s.returned[i];
    assert ReturnedOk(CacheDesign(c), s, r);
    assert CacheKey(r.query)[|KEY_PREFIX|..] == r.query;
    assert CacheKey(r.answer.query)[|KEY_PREFIX|..] == r.answer.query;
    assert r.at - (c.ttl as real + c.maxDelay) < r.answer.at && r.answer.value == c.held(r.query, r.answer.at);
  }

  /** From `since` on, the inner registry holds `id` suspended. */
  ghost predicate StaysSuspended(c: Config, id: string, since: real) {
    forall t: real | since <= t :: c.held(id, t).Some? && c.held(id, t).value.status == Suspended
  }

  /** A suspension that is not reversed is seen by every lookup after the bound. */
  lemma SuspensionIsSeen(c: Config, start: real, es: seq<Event<string, string, Answered>>, i: nat, since: real)
    requires 0 < c.ttl && Returns(c, start, es, i)
    requires StaysSuspended(c, Lookup(c, start, es, i).query, since)
    requires since + c.ttl as real + c.maxDelay <= Lookup(c, start, es, i).at
    ensures var agent := Lookup(c, start, es, i).answer.value; agent.Some? && agent.value.status == Suspended
  {
    LookupsAreFreshEnough(c, start, es, i);
  }

  /** Every lookup of every run is stale by less than `bound`. */
  ghost predicate AlwaysWithin(c: Config, bound: real) {
    forall start: real, es: seq<Event<string, string, Answered>>, i: nat | Returns(c, start, es, i) ::
      WithinBound(c, Lookup(c, start, es, i), bound)
  }

  /** And no smaller bound does: an agent removed just after a slow fill observed it
      is still served as late as the bound allows. */
  lemma LeastBound(c: Config, id: string, removed: real, bound: real)
    requires 0 < c.ttl && 0.0 <= c.maxDelay
    requires forall t: real :: c.held(id, t).Some? <==> t <= removed
    ensures AlwaysWithin(c, bound) <==> c.ttl as real + c.maxDelay <= bound
  {
    if c.ttl as real + c.maxDelay <= bound {
      forall start: real, es: seq<Event<string, string, Answered>>, i: nat | Returns(c, start, es, i)
        ensures WithinBound(c, Lookup(c, start, es, i), bound)
      {
        LookupsAreFreshEnough(c, start, es, i);
      }
    } else {
      hide Run;
      var wait := if bound < c.maxDelay then 0.0 else bound - c.maxDelay;
      var seen := c.held(id, removed);
      SlowFillIsServedLate(CacheDesign(c), id, seen, removed, wait);
      var es := SlowFillThenHit(CacheDesign(c), id, seen, wait);
      assert Returns(c, removed, es, 1);
      assert !WithinBound(c, Lookup(c, removed, es, 1), bound);
    }
  }

  /* ---- The decorator ---- */

  /** How agents are written as JSON text; no text of an agent is empty. */
  datatype Codec = Codec(dump: RegisteredAgent -> string, parse: string -> RegisteredAgent)

  ghost predicate RoundTrips(codec: Codec) {
    forall agent: RegisteredAgent :: codec.dump(agent) != "" && codec.parse(codec.dump(agent)) == agent
  }

  /** The empty string marks a confirmed absence. */
  function Encode(codec: Codec, agent: Answered): string {
    match agent
    case None => ""
    case Some(a) => codec.dump(a)
  }

  function Encoder(codec: Codec): Answered -> string {
    (agent: Answered) => Encode(codec, agent)
  }

  function Decode(codec: Codec, text: string): Answered {
    if text == "" then None else Some(codec.parse(text))
  }

  class CachingAgentRegistry {
    const config: Config
    const codec: Codec
    var redis: map<string, Entry>
    ghost var model: State<string, string, Answered>

    ghost predicate Valid()
      reads this
    {
      && RoundTrips(codec) && 0 < config.ttl
      && model.lookups == map[]
      && Mirrors(redis, model.store, Encoder(codec))
    }

    constructor (config: Config, codec: Codec, now: real)
      requires RoundTrips(codec) && 0 < config.ttl
      ensures Valid() && this.config == config && this.codec == codec && model == Initial(now)
    {
      this.config := config;
      this.codec := codec;
      redis := map[];
      model := Initial(now);
    }

    /** One lookup at time `now`, whose write takes `delay`. */
    method Lookup(id: string, now: real, delay: real) returns (agent: Answered)
      requires Valid() && model.now <= now && 0.0 <= delay <= config.maxDelay
      modifies this
      ensures Valid()
      ensures var key := CacheKey(id);
        if key in old(redis) && now < old(redis)[key].expiresAt then
          && agent == Decode(codec, old(redis)[key].text) && redis == old(redis)
          && Run(CacheDesign(config), old(model).(now := now), [Start(0, id)]) == Some(model)
        else
          && agent == config.held(id, now)
          && redis == Stores(old(redis), key, Encode(codec, agent), config.ttl, now + delay)
          && Run(CacheDesign(config), old(model).(now := now), Miss(0, id, agent, delay)) == Some(model)
      ensures |model.returned| == |old(model).returned| + 1
      ensures var r := model.returned[|old(model).returned|]; r.query == id && r.answer.value == agent
    {
      hide Run, Step, Mirrors;
      var key := CacheKey(id);
      ghost var s := model.(now := now);
      if key in redis && now < redis[key].expiresAt {
        model := HitRuns(CacheDesign(config), redis, s, Encoder(codec), 0, id);
        return Decode(codec, redis[key].text);
      }
      agent := config.held(id, now);
      model := MissStores(CacheDesign(config), redis, s, Encoder(codec), 0, id, agent, delay);
      redis := redis[key := Entry(Encode(codec, agent), now + delay + config.ttl as real)];
    }
  }
}
